// Numbers written out and read back: the alphabets, signs and prefixes of texts, and what reading them gives.

module Numerals {
  import opened Arithmetic
  import opened Numbers

  const LOWER: string := "0123456789abcdefghijklmnopqrstuvwxyz"
  const UPPER: string := "0123456789ABCDEFGHIJKLMNOPQRSTUVWXYZ"

  /** A digit and the alphabet it is taken from; a number may mix them. */
  datatype Digit = Digit(value: nat, upper: bool)

  function Glyph(d: Digit): char
    requires d.value < 36
  {
    (if d.upper then UPPER else LOWER)[d.value]
  }

  predicate Below(ds: seq<Digit>, base: nat) {
    forall k :: 0 <= k < |ds| ==> ds[k].value < base
  }

  function Spelled(ds: seq<Digit>): string
    requires Below(ds, 36)
  {
    seq(|ds|, k requires 0 <= k < |ds| => Glyph(ds[k]))
  }

  /** The number that a row of digits is, the highest first. */
  function Worth(ds: seq<Digit>, base: nat): nat {
    if ds == [] then 0 else Worth(ds[..|ds| - 1], base) * base + ds[|ds| - 1].value
  }

  lemma Shorter(n: nat, base: nat)
    requires 2 <= base <= n
    ensures 1 <= n / base < n && n == n / base * base + n % base
  {
    var q := n / base;
    assert n == base * q + n % base;
    if q >= n {
      Scale(2, base, q);
    }
  }

  /** The digits of a number, without leading zeros. */
  function DigitsOf(n: nat, base: nat, upper: bool): (ds: seq<Digit>)
    requires base >= 2
    ensures ds != [] && Below(ds, base)
    decreases n
  {
    if n < base then [Digit(n, upper)]
    else
      Shorter(n, base);
      DigitsOf(n / base, base, upper) + [Digit(n % base, upper)]
  }

  lemma {:induction false} DigitsOfWorth(n: nat, base: nat, upper: bool)
    requires base >= 2
    ensures Worth(DigitsOf(n, base, upper), base) == n
    ensures DigitsOf(n, base, upper)[0].value == 0 ==> |DigitsOf(n, base, upper)| == 1
    decreases n
  {
    var ds := DigitsOf(n, base, upper);
    if n < base {
      assert ds[..0] == [];
    } else {
      Shorter(n, base);
      DigitsOfWorth(n / base, base, upper);
      assert ds[..|ds| - 1] == DigitsOf(n / base, base, upper);
    }
  }

  /** How a number may be introduced: not at all, by 0x or 0X, or by 0. */
  datatype Form = Plain | Hex(x: char) | Octal

  function Intro(form: Form): string {
    match form
    case Plain => ""
    case Hex(x) => ['0', x]
    case Octal => "0"
  }

  /** Whether reading in a base takes the form for a number in a radix; base 0 goes by the form. */
  predicate Suits(base: nat, form: Form, radix: nat) {
    match form
    case Plain => (2 <= base <= 36 && radix == base) || (base == 0 && radix == 10)
    case Hex(x) => (x == 'x' || x == 'X') && (base == 0 || base == 16) && radix == 16
    case Octal => base == 0 && radix == 8
  }

  /** Digits that suit a form: some, and none that would be taken for an introduction. */
  predicate Proper(base: nat, form: Form, radix: nat, ds: seq<Digit>)
    ensures Proper(base, form, radix, ds) ==> Below(ds, 36) && ValidBase(base) && radix >= 2
  {
    && Suits(base, form, radix) && Below(ds, radix)
    && (form.Plain? ==> ds != [] && (ds[0].value != 0 || |ds| == 1 || 2 <= base < 34))
  }

  predicate Blank(s: string) {
    forall k :: 0 <= k < |s| ==> s[k] == ' ' || s[k] == '\n'
  }

  /** What ends a number: the end of the text, or something that is neither letter nor digit. */
  predicate Ends(tail: string) {
    tail == [] || !(OneOf(tail[0], LOWER) || OneOf(tail[0], UPPER))
  }

  predicate OneOf(c: char, alphabet: string) { c in alphabet }

  lemma IsOne(alphabet: string, k: nat)
    requires k < |alphabet|
    ensures OneOf(alphabet[k], alphabet)
  {
  }

  // ----- characters -----

  lemma LowerCode(v: nat)
    requires v < 36
    ensures Glyph(Digit(v, false)) as int == (if v < 10 then 48 else 87) + v
  {
    assert Glyph(Digit(v, false)) == LOWER[v];
  }

  lemma UpperCode(v: nat)
    requires v < 36
    ensures Glyph(Digit(v, true)) as int == (if v < 10 then 48 else 55) + v
  {
    assert Glyph(Digit(v, true)) == UPPER[v];
  }

  lemma GlyphCode(d: Digit)
    requires d.value < 36
    ensures Glyph(d) as int == (if d.value < 10 then 48 else if d.upper then 55 else 87) + d.value
  {
    hide Glyph;
    if d.upper { UpperCode(d.value); } else { LowerCode(d.value); }
  }

  lemma GlyphDigit(d: Digit)
    requires d.value < 36
    ensures DigitOf(Glyph(d)) == d.value
  {
    hide Glyph;
    GlyphCode(d);
  }

  lemma GlyphIs(d: Digit)
    requires d.value < 36
    ensures Glyph(d) == '0' <==> d.value == 0
    ensures Glyph(d) == 'x' || Glyph(d) == 'X' ==> d.value == 33
    ensures !IsSpace(Glyph(d)) && Glyph(d) != '+' && Glyph(d) != '-'
  {
    hide Glyph;
    GlyphCode(d);
  }

  lemma GlyphKnown(d: Digit)
    requires d.value < 36
    ensures OneOf(Glyph(d), if d.upper then UPPER else LOWER)
  {
    hide OneOf;
    IsOne(if d.upper then UPPER else LOWER, d.value);
  }

  /** Whatever has a digit's value is in one of the alphabets. */
  lemma KnownGlyph(c: char)
    ensures DigitOf(c) >= 0 ==> OneOf(c, LOWER) || OneOf(c, UPPER)
  {
    hide OneOf, Glyph;
    if DigitOf(c) >= 0 {
      var d := Digit(DigitOf(c), 'A' <= c <= 'Z');
      GlyphCode(d);
      GlyphKnown(d);
      assert Glyph(d) == c;
    }
  }

  // ----- the parts of a text -----

  lemma {:induction false} SpacesSkipped(s: string, i: nat, n: nat)
    requires i <= n <= |s| && (forall k :: i <= k < n ==> IsSpace(s[k])) && (n < |s| ==> !IsSpace(s[n]))
    ensures SkipSpace(s, i) == n
    decreases n - i
  {
    if i < n { SpacesSkipped(s, i + 1, n); }
  }

  /** The digits ds stand in s from i on. */
  ghost predicate Stand(s: string, i: nat, ds: seq<Digit>) {
    && i + |ds| <= |s| && Below(ds, 36)
    && forall k {:trigger ds[k]} :: 0 <= k < |ds| ==> s[i + k] == Glyph(ds[k])
  }

  lemma {:induction false} RunCovers(s: string, i: nat, ds: seq<Digit>)
    requires Stand(s, i, ds) && Ends(s[i + |ds|..])
    ensures RunEnd(s, i) == i + |ds|
    decreases |ds|
  {
    hide DigitOf, Glyph, OneOf;
    if ds == [] {
      if i < |s| { KnownGlyph(s[i]); }
    } else {
      assert s[i + 0] == Glyph(ds[0]);
      GlyphDigit(ds[0]);
      Later(s, i, ds);
      RunCovers(s, i + 1, ds[1..]);
    }
  }

  lemma Later(s: string, i: nat, ds: seq<Digit>)
    requires Stand(s, i, ds) && ds != []
    ensures Stand(s, i + 1, ds[1..])
  {
    forall k | 0 <= k < |ds| - 1 ensures s[i + 1 + k] == Glyph(ds[1..][k]) {
      assert s[i + (k + 1)] == Glyph(ds[k + 1]);
    }
  }

  lemma Earlier(s: string, i: nat, ds: seq<Digit>)
    requires Stand(s, i, ds) && ds != []
    ensures Stand(s, i, ds[..|ds| - 1]) && s[i + |ds| - 1] == Glyph(ds[|ds| - 1])
  {
    var front := ds[..|ds| - 1];
    forall k {:trigger front[k]} | 0 <= k < |front| ensures s[i + k] == Glyph(front[k]) {
      assert s[i + k] == Glyph(ds[k]);
    }
    assert s[i + (|ds| - 1)] == Glyph(ds[|ds| - 1]);
  }

  lemma {:induction false} ValueIsWorth(s: string, i: nat, ds: seq<Digit>, base: nat)
    requires Stand(s, i, ds)
    ensures ValueOf(s, i, i + |ds|, base) == Worth(ds, base)
    decreases |ds|
  {
    hide DigitOf, Glyph;
    if ds != [] {
      Earlier(s, i, ds);
      GlyphDigit(ds[|ds| - 1]);
      ValueIsWorth(s, i, ds[..|ds| - 1], base);
    }
  }

  lemma StandBelow(s: string, i: nat, ds: seq<Digit>, base: nat)
    requires Stand(s, i, ds) && Below(ds, base)
    ensures DigitsBelow(s, i, i + |ds|, base)
  {
    hide DigitOf, Glyph;
    forall k | i <= k < i + |ds| ensures 0 <= DigitOf(s[k]) < base {
      assert s[i + (k - i)] == Glyph(ds[k - i]);
      GlyphDigit(ds[k - i]);
    }
  }

  lemma {:induction false} LeadingZero(ds: seq<Digit>, base: nat)
    requires ds != [] && ds[0].value == 0
    ensures Worth(ds, base) == Worth(ds[1..], base)
    decreases |ds|
  {
    if |ds| > 1 {
      LeadingZero(ds[..|ds| - 1], base);
      assert ds[1..][..|ds| - 2] == ds[..|ds| - 1][1..];
    }
  }

  lemma Dropped(s: string, i: nat, a: string, b: string)
    requires i <= |s| && s[i..] == a + b
    ensures i + |a| <= |s| && s[i + |a|..] == b && forall k {:trigger a[k]} :: 0 <= k < |a| ==> s[i + k] == a[k]
  {
    assert s[i + |a|..] == s[i..][|a|..];
    forall k {:trigger a[k]} | 0 <= k < |a| ensures s[i + k] == a[k] {
      assert s[i + k] == s[i..][k];
    }
  }

  /** What is left to read behind the introduction: the digits, but for a leading zero that was taken for one. */
  function Behind(form: Form, ds: seq<Digit>): seq<Digit> {
    if form.Plain? && ds != [] && ds[0].value == 0 then ds[1..] else ds
  }

  /** The introduction and the digits are found, in the radix they are written in. */
  lemma IntroRead(s: string, i: nat, base: nat, form: Form, radix: nat, ds: seq<Digit>, tail: string)
    requires i <= |s| && Proper(base, form, radix, ds) && Ends(tail)
    requires s[i..] == Intro(form) + (Spelled(ds) + tail)
    ensures ValidBase(base)
    ensures var h, rest := Prefix(s, i, base), Behind(form, ds);
      && h.Digits? && Stand(s, h.start, rest) && s[h.start + |rest|..] == tail && Below(rest, h.base)
      && Worth(rest, h.base) == Worth(ds, radix) && (Worth(ds, radix) > 0 ==> h.base == radix)
  {
    hide Spelled, Worth, Glyph, Ends, Stand, Prefix, Suits;
    var intro := Intro(form);
    Dropped(s, i, intro, Spelled(ds) + tail);
    Standing(s, i + |intro|, ds, tail);
    match form
    case Hex(x) => HexRead(s, i, base, x, radix, ds);
    case Octal => OctalRead(s, i, base, radix, ds, tail);
    case Plain => PlainRead(s, i, base, radix, ds, tail);
  }

  lemma HexRead(s: string, i: nat, base: nat, x: char, radix: nat, ds: seq<Digit>)
    requires i + 2 <= |s| && Proper(base, Hex(x), radix, ds)
    requires forall k {:trigger Intro(Hex(x))[k]} :: 0 <= k < 2 ==> s[i + k] == Intro(Hex(x))[k]
    ensures Prefix(s, i, base) == Digits(i + 2, 16) && radix == 16
  {
    assert s[i + 0] == Intro(Hex(x))[0] && s[i + 1] == Intro(Hex(x))[1];
  }

  lemma OctalRead(s: string, i: nat, base: nat, radix: nat, ds: seq<Digit>, tail: string)
    requires i + 1 <= |s| && Proper(base, Octal, radix, ds) && Stand(s, i + 1, ds) && s[i + 1 + |ds|..] == tail && Ends(tail)
    requires forall k {:trigger Intro(Octal)[k]} :: 0 <= k < 1 ==> s[i + k] == Intro(Octal)[k]
    ensures Prefix(s, i, base) == Digits(i + 1, 8) && radix == 8
  {
    hide Glyph, Ends;
    assert s[i + 0] == Intro(Octal)[0];
    NoX(s, i + 1, ds, tail);
  }

  lemma Standing(s: string, i: nat, ds: seq<Digit>, tail: string)
    requires i <= |s| && Below(ds, 36) && s[i..] == Spelled(ds) + tail
    ensures Stand(s, i, ds) && s[i + |ds|..] == tail
  {
    forall k | 0 <= k < |ds| ensures s[i + k] == Glyph(ds[k]) {
      assert s[i + k] == s[i..][k];
    }
    assert s[i + |ds|..] == s[i..][|ds|..];
  }

  lemma NoX(s: string, i: nat, ds: seq<Digit>, tail: string)
    requires i <= |s| && Stand(s, i, ds) && s[i + |ds|..] == tail && Ends(tail)
    requires ds != [] ==> ds[0].value != 33
    ensures i < |s| ==> s[i] != 'x' && s[i] != 'X'
  {
    hide Glyph, OneOf;
    if ds != [] {
      assert s[i + 0] == Glyph(ds[0]);
      GlyphIs(ds[0]);
    } else {
      IsOne(LOWER, 33);
      IsOne(UPPER, 33);
      assert LOWER[33] == 'x' && UPPER[33] == 'X';
    }
  }

  lemma PlainRead(s: string, i: nat, base: nat, radix: nat, ds: seq<Digit>, tail: string)
    requires i <= |s| && Stand(s, i, ds) && s[i + |ds|..] == tail && Proper(base, Plain, radix, ds) && Ends(tail)
    ensures var h, rest := Prefix(s, i, base), Behind(Plain, ds);
      && h.Digits? && Stand(s, h.start, rest) && s[h.start + |rest|..] == tail && Below(rest, h.base)
      && Worth(rest, h.base) == Worth(ds, radix) && (Worth(ds, radix) > 0 ==> h.base == radix)
  {
    hide Glyph, Worth, Ends;
    assert s[i + 0] == Glyph(ds[0]);
    GlyphIs(ds[0]);
    if ds[0].value == 0 {
      Later(s, i, ds);
      NoX(s, i + 1, ds[1..], tail);
      LeadingZero(ds, radix);
      if base == 0 { NothingLeft(radix); NothingLeft(8); }
    }
  }

  lemma NothingLeft(base: nat)
    ensures Worth([], base) == 0
  {
  }

  // ----- whole texts -----

  /** A number as a program may find it: blanks, perhaps a sign, an introduction, digits and something behind. */
  function Text(blanks: string, sign: string, form: Form, ds: seq<Digit>, tail: string): string
    requires Below(ds, 36)
  {
    blanks + sign + (Intro(form) + (Spelled(ds) + tail))
  }

  lemma BlanksSkipped(blanks: string, more: string)
    requires Blank(blanks) && (more != [] ==> !IsSpace(more[0]))
    ensures SkipSpace(blanks + more, 0) == |blanks| && (blanks + more)[|blanks|..] == more
  {
    SpacesSkipped(blanks + more, 0, |blanks|);
  }

  /** The first character of a number is no blank and no sign. */
  lemma NumberStarts(base: nat, form: Form, radix: nat, ds: seq<Digit>, tail: string)
    requires Proper(base, form, radix, ds)
    ensures var t := Intro(form) + (Spelled(ds) + tail); t != [] && !IsSpace(t[0]) && t[0] != '+' && t[0] != '-'
  {
    hide Glyph;
    if form.Plain? {
      GlyphIs(ds[0]);
      assert Spelled(ds)[0] == Glyph(ds[0]);
    }
  }

  /** Everything that reading needs to know of the digits. */
  lemma DigitsRead(s: string, i: nat, base: nat, form: Form, radix: nat, ds: seq<Digit>, tail: string)
    requires i <= |s| && Proper(base, form, radix, ds) && Ends(tail)
    requires s[i..] == Intro(form) + (Spelled(ds) + tail)
    ensures ValidBase(base)
    ensures var h := Prefix(s, i, base);
      && h.Digits? && RunEnd(s, h.start) == |s| - |tail| && DigitsBelow(s, h.start, RunEnd(s, h.start), h.base)
      && ValueOf(s, h.start, RunEnd(s, h.start), h.base) == Worth(ds, radix)
      && (Worth(ds, radix) > 0 ==> h.base == radix)
  {
    hide Spelled, Worth, Intro, Prefix, Stand, RunEnd, ValueOf, Ends, DigitsBelow, Proper, Below, Behind, Suits;
    IntroRead(s, i, base, form, radix, ds, tail);
    var h, rest := Prefix(s, i, base), Behind(form, ds);
    assert h.start + |rest| <= |s| by { StandFits(s, h.start, rest); }
    RunCovers(s, h.start, rest);
    StandBelow(s, h.start, rest, h.base);
    ValueIsWorth(s, h.start, rest, h.base);
  }

  lemma StandFits(s: string, i: nat, ds: seq<Digit>)
    requires Stand(s, i, ds)
    ensures i + |ds| <= |s|
  {
  }

  /** An unsigned number is read as itself, or as the maximum with an error when it is larger. */
  lemma UnsignedRead(blanks: string, base: nat, form: Form, radix: nat, ds: seq<Digit>, tail: string, max: nat,
                     val: int, end: nat, errno: Errno)
    requires Blank(blanks) && Proper(base, form, radix, ds) && Ends(tail)
    ensures ValidBase(base)
    ensures var s, n := Text(blanks, "", form, ds, tail), Worth(ds, radix);
      ReadsUnsigned(s, base, max, val, end, errno) ==>
      && val == (if n <= max then n else max) && errno == (if n <= max then Fine else Erange)
      && (n <= max ==> end == |s| - |tail|)
  {
    hide Worth, Text, Intro, Spelled, Prefix, RunEnd, DigitsBelow, SkipSpace, ValueOf, Held, Proper, StopsAt, Ends, Blank;
    hide AfterSign, Negative;
    var s := Text(blanks, "", form, ds, tail);
    TextParts(blanks, "", base, form, radix, ds, tail);
    DigitsRead(s, |blanks|, base, form, radix, ds, tail);
    if ReadsUnsigned(s, base, max, val, end, errno) {
      StopsInside(s, Prefix(s, |blanks|, base).start, end, Prefix(s, |blanks|, base).base, max, 0);
    }
  }

  lemma StopsInside(s: string, start: nat, end: nat, base: nat, max: nat, bump: nat)
    requires start <= |s| && base > 0 && StopsAt(s, start, end, base, max, bump)
    ensures end <= RunEnd(s, start)
  {
  }

  /** What clamping yields, in the number's own terms. */
  lemma ClampedIs(n: nat, negative: bool, base: nat, max: nat, val: int, errno: Errno)
    requires base > 0 && Clamps(n, negative, base, max, val, errno)
    ensures var exact: int, top: int := if negative then -(n as int) else n, max;
      && val == (if exact > top then top else if exact < -top - 1 then -top - 1 else exact)
      && (errno == Erange <==> exact > top || exact < -top - 1 || (exact == -top - 1 && n % base == 0))
  {
  }

  lemma SignedClamps(s: string, i: nat, base: nat, max: nat, val: int, end: nat, errno: Errno, h: Head, n: nat)
    requires ValidBase(base) && i == SkipSpace(s, 0) < |s| && h == Prefix(s, AfterSign(s, i), base) && h.Digits?
    requires DigitsBelow(s, h.start, RunEnd(s, h.start), h.base) && ValueOf(s, h.start, RunEnd(s, h.start), h.base) == n
    ensures ReadsSigned(s, base, max, val, end, errno) ==>
      Clamps(n, Negative(s, i), h.base, max, val, errno) && (errno == Fine ==> end == RunEnd(s, h.start))
  {
    hide RunEnd, DigitsBelow, SkipSpace, ValueOf, Held, Clamps, Prefix, AfterSign, Negative, TooLarge;
  }

  /**
   * A signed number is read as itself, or as the end of the range it is beyond, with an error; the lowest number is an
   * error too when the radix divides it.
   */
  lemma SignedRead(blanks: string, sign: string, base: nat, form: Form, radix: nat, ds: seq<Digit>, tail: string, max: nat,
                   val: int, end: nat, errno: Errno)
    requires sign == "" || sign == "+" || sign == "-"
    requires Blank(blanks) && Proper(base, form, radix, ds) && Ends(tail)
    ensures var s, n := Text(blanks, sign, form, ds, tail), Worth(ds, radix);
      var exact: int, top: int := if sign == "-" then -(n as int) else n, max;
      ReadsSigned(s, base, max, val, end, errno) ==>
      && val == (if exact > top then top else if exact < -top - 1 then -top - 1 else exact)
      && (errno == Erange <==> exact > top || exact < -top - 1 || (exact == -top - 1 && n % radix == 0))
      && (errno == Fine ==> end == |s| - |tail|)
  {
    hide Worth, Text, Prefix, RunEnd, DigitsBelow, SkipSpace, ValueOf, Proper, Ends, Clamps, ReadsSigned, AfterSign, Negative;
    hide Suits, Blank, Intro, Spelled;
    var s := Text(blanks, sign, form, ds, tail);
    TextParts(blanks, sign, base, form, radix, ds, tail);
    DigitsRead(s, |blanks| + |sign|, base, form, radix, ds, tail);
    if ReadsSigned(s, base, max, val, end, errno) {
      var h := Prefix(s, |blanks| + |sign|, base);
      SignedClamps(s, |blanks|, base, max, val, end, errno, h, Worth(ds, radix));
      ClampedIs(Worth(ds, radix), sign == "-", h.base, max, val, errno);
    }
  }

  /** Where the parts of a text are found. */
  lemma TextParts(blanks: string, sign: string, base: nat, form: Form, radix: nat, ds: seq<Digit>, tail: string)
    requires (sign == "" || sign == "+" || sign == "-") && Blank(blanks) && Proper(base, form, radix, ds)
    ensures var s, j := Text(blanks, sign, form, ds, tail), |blanks| + |sign|;
      && SkipSpace(s, 0) == |blanks| < |s| && j <= |s| && s[j..] == Intro(form) + (Spelled(ds) + tail)
      && AfterSign(s, |blanks|) == j && (Negative(s, |blanks|) <==> sign == "-")
  {
    hide Intro, Spelled, SkipSpace, Proper, Blank, AfterSign, Negative;
    var more := Intro(form) + (Spelled(ds) + tail);
    var s := Text(blanks, sign, form, ds, tail);
    assert s == blanks + (sign + more);
    NumberStarts(base, form, radix, ds, tail);
    BlanksSkipped(blanks, sign + more);
    Dropped(s, |blanks|, sign, more);
    SignRead(s, |blanks|, sign, more);
  }

  lemma SignRead(s: string, i: nat, sign: string, more: string)
    requires sign == "" || sign == "+" || sign == "-"
    requires i <= |s| && s[i..] == sign + more && more != [] && more[0] != '+' && more[0] != '-'
    ensures AfterSign(s, i) == i + |sign| && (Negative(s, i) <==> sign == "-")
  {
    assert s[i] == (sign + more)[0];
  }

  /** Writing a number and reading it back: the number, or the maximum and an error. */
  lemma RoundTrip(n: nat, base: nat, upper: bool, max: nat, val: int, end: nat, errno: Errno)
    requires 2 <= base <= 36
    ensures var ds := DigitsOf(n, base, upper);
      && Below(ds, 36)
      && (ReadsUnsigned(Spelled(ds), base, max, val, end, errno) ==>
            val == (if n <= max then n else max) && errno == (if n <= max then Fine else Erange))
  {
    var ds := DigitsOf(n, base, upper);
    DigitsOfWorth(n, base, upper);
    hide DigitsOf, ReadsUnsigned, Worth;
    assert Text("", "", Plain, ds, "") == Spelled(ds);
    UnsignedRead("", base, Plain, base, ds, "", max, val, end, errno);
  }

  /** There is no number in blanks alone. */
  lemma OnlyBlanks(s: string, base: nat, max: nat, val: int, end: nat, errno: Errno)
    requires Blank(s) && ValidBase(base)
    ensures ReadsUnsigned(s, base, max, val, end, errno) <==> val == 0 && end == |s| && errno == Einval
    ensures ReadsSigned(s, base, max, val, end, errno) <==> val == 0 && end == |s| && errno == Einval
  {
    SpacesSkipped(s, 0, |s|);
  }

  /** A 0x that does not fit the base is read as nothing: the end is the x. */
  lemma HexMisfits(base: nat, x: char, more: string, val: int, end: nat, errno: Errno)
    requires (x == 'x' || x == 'X') && 2 <= base <= 36 && base != 16
    ensures ReadsUnsigned(['0', x] + more, base, 0xFFFF_FFFF, val, end, errno) <==> val == 0 && end == 1 && errno == Fine
  {
    SpacesSkipped(['0', x] + more, 0, 0);
  }
}
