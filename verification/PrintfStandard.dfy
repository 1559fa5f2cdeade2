/**
 What the C standard (section 7.21.6.1 of C11) has a conversion print, written down without the code's own
 terms, and exactly when the bundled printf prints that.
 */
module PrintfStandard {
  import opened Options
  import opened Numerals
  import opened PrintfIntegers
  import opened PrintfFormat

  // ---------- The standard ----------

  function Symbol(d: nat, upper: bool): char
    requires d < 16
  {
    if upper then "0123456789ABCDEF"[d] else "0123456789abcdef"[d]
  }

  /** A number written in a base, most significant digit first. */
  function Written(m: nat, base: nat, upper: bool): (s: string)
    requires 2 <= base <= 16
    ensures s != ""
    decreases m
  {
    if m < base then [Symbol(m, upper)] else
    Shrinks(m, base);
    Written(m / base, base, upper) + [Symbol(m % base, upper)]
  }

  lemma Shrinks(m: nat, base: nat)
    requires 2 <= base <= m
    ensures 0 < m / base < m && 0 <= m % base < base && m == m % base + base * (m / base)
  {
    Divide(m, base);
    var q := m / base;
    if q >= m {
      ProductMonotone(2, base, m, q);
    }
  }

  /** A conversion specification: flag characters, field width (0 for none), precision, length modifier and
      conversion character. */
  datatype Spec = Spec(flags: string, width: nat, precision: Option<nat>, length: string, c: char)

  predicate Has(s: Spec, flag: char) {
    flag in s.flags
  }

  predicate IsFlag(x: char) {
    x == '0' || x == '-' || x == '+' || x == ' ' || x == '#'
  }

  predicate Flagged(fs: string) {
    forall x <- fs :: IsFlag(x)
  }

  predicate IsLength(s: string) {
    s == "" || s == "hh" || s == "h" || s == "l" || s == "ll" || s == "j" || s == "z" || s == "t"
  }

  /** The flags are flags, and width and precision fit an unsigned int. */
  predicate InOrder(s: Spec) {
    Flagged(s.flags) && s.width < 0x1_0000_0000 && (s.precision.Some? ==> s.precision.value < 0x1_0000_0000)
  }

  /** An integer conversion of the standard. */
  predicate Standard(s: Spec) {
    && InOrder(s) && IsLength(s.length)
    && (s.c == 'd' || s.c == 'i' || s.c == 'u' || s.c == 'o' || s.c == 'x' || s.c == 'X')
  }

  function Bits(length: string): nat {
    if length == "hh" then 8 else if length == "h" then 16 else if length == "" then 32 else 64
  }

  predicate SignedConversion(c: char) {
    c == 'd' || c == 'i'
  }

  /** The smallest and the largest value of the type a conversion names. */
  function Least(s: Spec): int {
    if !SignedConversion(s.c) then 0
    else if Bits(s.length) == 8 then -0x80 else if Bits(s.length) == 16 then -0x8000
    else if Bits(s.length) == 32 then -0x8000_0000 else -0x8000_0000_0000_0000
  }

  function Modulus(s: Spec): nat {
    if Bits(s.length) == 8 then 0x100 else if Bits(s.length) == 16 then 0x1_0000
    else if Bits(s.length) == 32 then 0x1_0000_0000 else 0x1_0000_0000_0000_0000
  }

  /** An argument converted to that type: the one value in its range that is the same modulo its size. */
  function Argument(s: Spec, v: int): int {
    Least(s) + (v - Least(s)) % Modulus(s)
  }

  lemma ArgumentExactly(s: Spec, v: int)
    ensures Least(s) <= Argument(s, v) < Least(s) + Modulus(s)
    ensures Argument(s, v) == v <==> Least(s) <= v < Least(s) + Modulus(s)
  {
  }

  function SignOf(s: Spec, w: int): string {
    if w < 0 then "-"
    else if SignedConversion(s.c) && Has(s, '+') then "+"
    else if SignedConversion(s.c) && Has(s, ' ') then " "
    else ""
  }

  function RadixOf(c: char): (base: nat)
    ensures 2 <= base <= 16
  {
    if c == 'x' || c == 'X' then 16 else if c == 'o' then 8 else 10
  }

  function PrefixOf(s: Spec, w: int): string {
    if Has(s, '#') && w != 0 then (if s.c == 'x' then "0x" else if s.c == 'X' then "0X" else "") else ""
  }

  /** The digits without the zeros of the precision: none for zero with a precision. */
  function BareDigits(s: Spec, w: int): string {
    if w == 0 && s.precision.Some? then "" else Written(if w < 0 then -w else w, RadixOf(s.c), s.c == 'X')
  }

  /** Digits with zeros in front of them, `p` in all if they are not more. */
  function Extended(t: string, p: nat): string {
    Fill('0', p - |t|) + t
  }

  /** The digits: as many as the precision asks for, and the first a zero in the alternative form of `o`. */
  function DigitsOf(s: Spec, w: int): string {
    var t := BareDigits(s, w);
    var u := if s.precision.Some? then Extended(t, s.precision.value) else t;
    if s.c == 'o' && Has(s, '#') && (u == "" || u[0] != '0') then "0" + u else u
  }

  /** A text on its side of a field. */
  function Laid(left: bool, width: nat, t: string): string {
    if left then t + Fill(' ', width - |t|) else Fill(' ', width - |t|) + t
  }

  /** The flag for zeros counts: no precision is given, and no `-`. */
  predicate ZeroFilled(s: Spec) {
    Has(s, '0') && !Has(s, '-') && s.precision.None?
  }

  /** Front and digits in a field, with zeros between them if the field is filled with zeros. */
  function Placed(zero: bool, left: bool, width: nat, front: string, digits: string): string {
    if zero then front + (Fill('0', width - |front| - |digits|) + digits) else Laid(left, width, front + digits)
  }

  /** What an integer conversion prints for a value of the type it names.  `#`, which the standard leaves undefined for
      decimal conversions, has no effect there. */
  function IntegerField(s: Spec, w: int): string {
    Placed(ZeroFilled(s), Has(s, '-'), s.width, SignOf(s, w) + PrefixOf(s, w), DigitsOf(s, w))
  }

  // ---------- The code's text ----------

  lemma SymbolOf(d: nat, upper: bool)
    requires d < 16
    ensures DigitChar(d, upper) == Symbol(d, upper)
  {
  }

  /** One turn of the conversion loop. */
  lemma DigitsTurn(v: nat, base: nat, upper: bool, room: nat)
    requires 2 <= base <= 16 && room > 0
    ensures 0 <= v % base < base && 0 <= v / base
    ensures Digits(v, base, upper, room) == [Symbol(v % base, upper)] +
      if v / base == 0 || room == 1 then "" else Digits(v / base, base, upper, room - 1)
  {
    hide DigitChar, Symbol;
    Divide(v, base);
    SymbolOf(v % base, upper);
  }

  lemma ReverseCons(c: char, s: string)
    ensures Reverse([c] + s) == Reverse(s) + [c]
  {
    assert ([c] + s)[1..] == s;
  }

  /** The digits the code makes are the ones written. */
  lemma {:induction false} DigitsWritten(v: nat, base: nat, upper: bool, room: nat)
    requires 2 <= base <= 16 && room > 0 && v < Power(base, room)
    ensures Reverse(Digits(v, base, upper, room)) == Written(v, base, upper)
    decreases room
  {
    hide Digits, Reverse, Symbol;
    DigitsTurn(v, base, upper, room);
    EmptyReverse();
    if v < base {
      NoQuotient(v, base);
      ReverseCons(Symbol(v, upper), "");
    } else {
      Shrinks(v, base);
      QuotientBelow(v, base, Power(base, room - 1));
      DigitsWritten(v / base, base, upper, room - 1);
      ReverseCons(Symbol(v % base, upper), Digits(v / base, base, upper, room - 1));
    }
  }

  lemma NoQuotient(v: nat, base: nat)
    requires v < base
    ensures v / base == 0 && v % base == v
  {
  }

  /** The digits of a value of at most 64 bits, most significant first. */
  function CodeDigits(m: nat, base: nat, f: Flags): string
    requires 2 <= base <= 16
  {
    if m == 0 && f.precision then "" else Written(m, base, f.upper)
  }

  predicate SmallBase(m: nat, base: nat) {
    8 <= base <= 16 && m < 0x1_0000_0000_0000_0000
  }

  lemma DigitsShown(m: nat, base: nat, f: Flags)
    requires SmallBase(m, base)
    ensures Reverse(NtoaDigits(m, base, f)) == CodeDigits(m, base, f)
    ensures |NtoaDigits(m, base, f)| == |CodeDigits(m, base, f)| <= 22
  {
    hide Digits, Power, Written;
    SixtyFourBits(m, base);
    DigitsAtMost(m, base, f);
    DigitsWritten(m, base, f.upper, PRINTF_NTOA_BUFFER_SIZE);
    EmptyReverse();
  }

  /** The scratch buffer, the right way round. */
  function Core(m: nat, negative: bool, base: nat, prec: nat, width: nat, f: Flags): string
    requires 2 <= base <= 16
  {
    Reverse(Scratch(NtoaDigits(m, base, f), negative, base, prec, width, f))
  }

  lemma TextOfCore(m: nat, negative: bool, base: nat, prec: nat, width: nat, f: Flags)
    requires 2 <= base <= 16 && (f.hash ==> m != 0)
    ensures NtoaText(m, negative, base, prec, width, f) ==
      if f.zeroPad && !f.left then Core(m, negative, base, prec, width, f)
      else Laid(f.left, width, Core(m, negative, base, prec, width, f))
  {
    hide NtoaDigits, Scratch, Reverse;
    assert m == 0 ==> f.(hash := false) == f;
    var t := Core(m, negative, base, prec, width, f);
    assert "" + t + "" == t && forall u: string :: "" + t + u == t + u && u + t + "" == u + t;
  }

  lemma {:induction false} ReversedZeros(s: string, k: nat)
    ensures Reverse(s + Fill('0', k)) == Fill('0', k) + Reverse(s)
    decreases k
  {
    if k == 0 {
      assert s + Fill('0', k) == s && Fill('0', k) + Reverse(s) == Reverse(s);
    } else {
      assert s + Fill('0', k) == (s + Fill('0', k - 1)) + ['0'];
      ReverseSnoc(s + Fill('0', k - 1), '0');
      ReversedZeros(s, k - 1);
      assert ['0'] + (Fill('0', k - 1) + Reverse(s)) == Fill('0', k) + Reverse(s);
    }
  }

  /** Precision and width add zeros to the digits. */
  lemma ZerosAdded(digits: string, negative: bool, prec: nat, width: nat, f: Flags)
    ensures var z := Zeros(digits, negative, prec, width, f);
      |z| >= |digits| && z == digits + Fill('0', |z| - |digits|)
  {
    var n := WidthLeft(negative, width, f);
    hide WidthLeft;
    assert digits + "" == digits;
    var z := Padded(digits, prec);
    assert Padded(z, n) == digits + Fill('0', |Padded(z, n)| - |digits|);
  }

  /** Without the alternative form: sign, zeros and digits. */
  lemma PlainCore(m: nat, negative: bool, base: nat, prec: nat, width: nat, f: Flags)
    requires SmallBase(m, base) && !f.hash
    ensures var z := Zeros(NtoaDigits(m, base, f), negative, prec, width, f); var t := CodeDigits(m, base, f);
      && |z| >= |t|
      && Core(m, negative, base, prec, width, f) == KeptSign(z, negative, f) + (Fill('0', |z| - |t|) + t)
  {
    hide NtoaDigits, Zeros, Reverse, CodeDigits, Sign;
    var digits := NtoaDigits(m, base, f);
    var z := Zeros(digits, negative, prec, width, f);
    DigitsShown(m, base, f);
    ZerosAdded(digits, negative, prec, width, f);
    SignLength(negative, width, f);
    ReverseSign(z, KeptSign(z, negative, f));
    ReversedZeros(digits, |z| - |digits|);
    assert z + "" == z;
  }

  /** The prefix of the alternative form, as the code makes it. */
  function Front(base: nat, f: Flags): string {
    if !f.hash then "" else if base == 16 then (if f.upper then "0X" else "0x") else "0"
  }

  /** How many characters the alternative form takes off the front of a full field. */
  function Cut(n: nat, base: nat, prec: nat, width: nat, f: Flags): nat {
    if !f.precision && (n == prec || n == width) then (if n > 1 && base == 16 then 2 else 1) else 0
  }

  predicate Alternative(m: nat, base: nat, f: Flags) {
    m != 0 && SmallBase(m, base) && (base == 8 || base == 16) && f.hash && !f.plus && !f.space
  }

  /** The scratch buffer in the alternative form. */
  lemma AlternativeScratch(m: nat, base: nat, prec: nat, width: nat, f: Flags)
    requires Alternative(m, base, f)
    ensures var digits := NtoaDigits(m, base, f);
      var z := Zeros(digits, false, prec, width, f); var cut := Cut(|z|, base, prec, width, f);
      && |z| >= |digits| >= 1 && z == digits + Fill('0', |z| - |digits|)
      && Scratch(digits, false, base, prec, width, f) == Prefixed(z[..|z| - cut], base, f.upper)
  {
    hide NtoaDigits, Zeros, Prefixed, Written, Fill;
    var digits := NtoaDigits(m, base, f);
    var z := Zeros(digits, false, prec, width, f);
    DigitsShown(m, base, f);
    ZerosAdded(digits, false, prec, width, f);
    assert z[..|z|] == z && forall u: string :: u + "" == u;
  }

  /** The alternative form: its prefix takes the place of the characters that are cut off, as far as the scratch
      buffer goes. */
  lemma AlternativeCore(m: nat, base: nat, prec: nat, width: nat, f: Flags)
    requires Alternative(m, base, f)
    ensures var z := Zeros(NtoaDigits(m, base, f), false, prec, width, f); var t := CodeDigits(m, base, f);
      var core := Core(m, false, base, prec, width, f); var cut := Cut(|z|, base, prec, width, f);
      && |z| >= |t| >= 1
      && |core| == Min(PRINTF_NTOA_BUFFER_SIZE, |z| - cut + |Front(base, f)|)
      && (|z| - cut + |Front(base, f)| <= PRINTF_NTOA_BUFFER_SIZE && cut <= |z| - |t| ==>
          core == Front(base, f) + (Fill('0', |z| - |t| - cut) + t))
      && (|z| == PRINTF_NTOA_BUFFER_SIZE && cut == 0 ==> core == Fill('0', |z| - |t|) + t)
  {
    hide NtoaDigits, Zeros, Reverse, Written, Fill, Prefixed, Scratch;
    var digits := NtoaDigits(m, base, f);
    var z := Zeros(digits, false, prec, width, f);
    var n := |digits|;
    DigitsShown(m, base, f);
    ScratchFits(digits, false, base, prec, width, f);
    AlternativeScratch(m, base, prec, width, f);
    var cut := Cut(|z|, base, prec, width, f);
    PrefixedBack(z[..|z| - cut], base, f);
    if cut <= |z| - n {
      Trimmed(digits, |z| - n, cut);
    }
  }

  /** Zeros that are cut off leave the others. */
  lemma Trimmed(digits: string, k: nat, cut: nat)
    requires cut <= k
    ensures var z := digits + Fill('0', k);
      Reverse(z[..|z| - cut]) == Fill('0', k - cut) + Reverse(digits)
  {
    hide Fill, Reverse;
    FillCut('0', k, cut);
    assert (digits + Fill('0', k))[..|digits| + k - cut] == digits + Fill('0', k - cut);
    ReversedZeros(digits, k - cut);
  }

  lemma FillCut(c: char, n: nat, k: nat)
    requires k <= n
    ensures Fill(c, n)[..n - k] == Fill(c, n - k)
  {
  }

  lemma TwoInFront(x: char, t: string)
    ensures ['0'] + ([x] + t) == ['0', x] + t
  {
  }

  lemma PrefixedBack(t: string, base: nat, f: Flags)
    requires |t| <= PRINTF_NTOA_BUFFER_SIZE && (base == 8 || base == 16) && f.hash
    ensures |Prefixed(t, base, f.upper)| == Min(PRINTF_NTOA_BUFFER_SIZE, |t| + |Front(base, f)|)
    ensures |t| + |Front(base, f)| <= PRINTF_NTOA_BUFFER_SIZE ==>
      Reverse(Prefixed(t, base, f.upper)) == Front(base, f) + Reverse(t)
    ensures |t| == PRINTF_NTOA_BUFFER_SIZE ==> Prefixed(t, base, f.upper) == t
  {
    hide Reverse;
    if |t| + |Front(base, f)| <= PRINTF_NTOA_BUFFER_SIZE {
      if base == 16 {
        var x := if f.upper then 'X' else 'x';
        ReverseSnoc(t, x);
        ReverseSnoc(t + [x], '0');
        TwoInFront(x, Reverse(t));
      } else {
        ReverseSnoc(t, '0');
      }
    }
  }

  // ---------- Fields that differ ----------

  /** A text with a character where a shorter one has left a space makes a different field. */
  lemma LaidDiffers(left: bool, width: nat, a: string, b: string, i: nat)
    requires i < |b| && b[i] != ' ' && if left then i >= |a| else |b| - i > |a|
    ensures Laid(left, width, a) != Laid(left, width, b)
  {
    var x, y := Laid(left, width, a), Laid(left, width, b);
    if |x| == |y| {
      var j := if left then i else |y| - |b| + i;
      assert y[j] == b[i] && x[j] == ' ';
    }
  }

  /** Zeros in front of digits, and the digits behind them, are not spaces. */
  lemma {:induction false} WrittenInk(m: nat, base: nat, upper: bool)
    requires 2 <= base <= 16
    ensures var t := Written(m, base, upper); t[|t| - 1] != ' ' && t[0] != ' ' && (m > 0 ==> t[0] != '0')
    decreases m
  {
    if m >= base {
      Shrinks(m, base);
      WrittenInk(m / base, base, upper);
    }
  }

  lemma FillNone(c: char, k: int, t: string)
    requires k <= 0
    ensures Fill(c, k) + t == t && t + Fill(c, k) == t
  {
  }

  lemma FillAt(c: char, k: nat, t: string)
    ensures k > 0 ==> (Fill(c, k) + t)[0] == c
    ensures t != "" ==> (Fill(c, k) + t)[k + |t| - 1] == t[|t| - 1]
  {
  }

  lemma LaidLength(left: bool, width: nat, t: string)
    ensures |Laid(left, width, t)| == Max(width, |t|)
  {
  }

  /** Neither precision nor alternative form: the standard's text, but for zeros in a field of more than 32. */
  lemma PlainField(m: nat, negative: bool, base: nat, width: nat, f: Flags)
    requires SmallBase(m, base) && !f.hash && !f.precision
    ensures var zero := f.zeroPad && !f.left;
      var standard := Placed(zero, f.left, width, Sign(negative, f), Written(m, base, f.upper));
      NtoaText(m, negative, base, 0, width, f) == standard <==> (zero ==> width <= 32)
  {
    hide NtoaText, NtoaDigits, Zeros, Core, Written, Fill, Sign, Laid, WidthLeft;
    var t, sign := Written(m, base, f.upper), Sign(negative, f);
    var z := Zeros(NtoaDigits(m, base, f), negative, 0, width, f);
    DigitsShown(m, base, f);
    TextOfCore(m, negative, base, 0, width, f);
    PlainCore(m, negative, base, 0, width, f);
    ZerosLength(NtoaDigits(m, base, f), negative, 0, width, f);
    SignLength(negative, width, f);
    var k := width - |sign| - |t|;
    if !(f.zeroPad && !f.left) {
      FillNone('0', 0, t);
    } else if width <= 32 {
      FillNone('0', 0, t);
      if k <= 0 {
        FillNone('0', k, t);
      }
    }
  }

  /** The code shows `n` digits with a precision of `p`: `-` keeps zeros out, and otherwise the scratch buffer holds
      them and the sign, or a space takes the place of a space as sign. */
  predicate PrecisionFits(left: bool, p: nat, n: nat, sign: string, width: nat) {
    if left then p <= n else p < 32 || (p == 32 && (sign == "" || (sign == " " && width > 32)))
  }

  /** With a precision: the standard's text exactly if the code shows it. */
  lemma PreciseField(m: nat, negative: bool, base: nat, p: nat, width: nat, f: Flags)
    requires SmallBase(m, base) && !f.hash && f.precision && !f.zeroPad
    ensures var t, sign := CodeDigits(m, base, f), Sign(negative, f);
      var standard := Placed(false, f.left, width, sign, Extended(t, p));
      NtoaText(m, negative, base, p, width, f) == standard <==> PrecisionFits(f.left, p, |t|, sign, width)
  {
    hide NtoaText, NtoaDigits, Zeros, Core, CodeDigits, Fill, Sign, Laid, WidthLeft;
    var t, sign := CodeDigits(m, base, f), Sign(negative, f);
    var z := Zeros(NtoaDigits(m, base, f), negative, p, width, f);
    DigitsShown(m, base, f);
    TextOfCore(m, negative, base, p, width, f);
    PlainCore(m, negative, base, p, width, f);
    ZerosLength(NtoaDigits(m, base, f), negative, p, width, f);
    SignLength(negative, width, f);
    var core, body := Core(m, negative, base, p, width, f), sign + Extended(t, p);
    FillNone('0', 0, t);
    if p <= |t| {
      FillNone('0', p - |t|, t);
    } else if f.left {
      ShownInk(m, base, f, p - |t|);
      LaidDiffers(true, width, core, body, |body| - 1);
    } else if p > 32 {
      FillAt('0', p - |t|, t);
      LaidDiffers(false, width, core, body, |sign|);
    } else if p == 32 {
      SignDropped(width, sign, Extended(t, p));
      assert core == Extended(t, p);
    }
  }

  lemma ShownInk(m: nat, base: nat, f: Flags, k: nat)
    requires 2 <= base <= 16 && k > 0
    ensures var t := CodeDigits(m, base, f); (Fill('0', k) + t)[k + |t| - 1] != ' '
  {
    hide Written;
    WrittenInk(m, base, f.upper);
    FillAt('0', k, CodeDigits(m, base, f));
  }

  /** A sign in front of 32 digits is missed, unless it is a space in a field of spaces. */
  lemma SignDropped(width: nat, sign: string, digits: string)
    requires IsSign(sign) && |digits| == 32
    ensures Laid(false, width, digits) == Laid(false, width, sign + digits) <==>
      sign == "" || (sign == " " && width > 32)
  {
    if sign == "" {
      assert sign + digits == digits;
    } else if sign == " " {
      if width > 32 {
        assert Fill(' ', width - 32) + digits == Fill(' ', width - 33) + (sign + digits);
      }
    } else {
      LaidDiffers(false, width, digits, sign + digits, 0);
    }
  }

  /** The alternative form without a precision: the standard's text exactly if the field is not just as wide as the
      digits, which then lose the first of them, and has room for the prefix if it is filled with zeros. */
  lemma AlternativeField(m: nat, base: nat, width: nat, f: Flags)
    requires Alternative(m, base, f) && !f.precision
    ensures var zero, t := f.zeroPad && !f.left, Written(m, base, f.upper);
      var standard := if base == 16 then Placed(zero, f.left, width, Front(base, f), t)
                      else Placed(zero, f.left, width, "", "0" + t);
      NtoaText(m, false, base, 0, width, f) == standard <==>
        (zero ==> width <= 32) && width != |t| && !(zero && base == 16 && width == |t| + 1)
  {
    hide NtoaText, NtoaDigits, Zeros, Core, Written, Fill, Laid;
    var t, front := Written(m, base, f.upper), Front(base, f);
    var z := Zeros(NtoaDigits(m, base, f), false, 0, width, f);
    DigitsShown(m, base, f);
    TextOfCore(m, false, base, 0, width, f);
    AlternativeCore(m, base, 0, width, f);
    ZerosLength(NtoaDigits(m, base, f), false, 0, width, f);
    FillNone('0', 0, t);
    var core, k := Core(m, false, base, 0, width, f), width - |front| - |t|;
    if f.zeroPad && !f.left {
      OctalFront(k, t);
      if k <= 0 {
        FillNone('0', k, t);
      }
    } else {
      assert base == 8 ==> "" + ("0" + t) == front + t;
      LaidLength(f.left, width, core);
      LaidLength(f.left, width, front + t);
    }
  }

  /** The zero in front of an octal number is one of the zeros. */
  lemma OctalFront(k: int, t: string)
    ensures "" + (Fill('0', k) + ("0" + t)) == "0" + (Fill('0', k) + t)
  {
  }

  /** The alternative form of `x` with a precision: exactly if `-` does not keep the zeros out and the scratch buffer
      has room for the prefix. */
  lemma AlternativeHex(m: nat, p: nat, width: nat, f: Flags)
    requires Alternative(m, 16, f) && f.precision && !f.zeroPad
    ensures var t := Written(m, 16, f.upper);
      var standard := Placed(false, f.left, width, Front(16, f), Extended(t, p));
      NtoaText(m, false, 16, p, width, f) == standard <==> if f.left then p <= |t| else p <= 30
  {
    hide NtoaText, NtoaDigits, Zeros, Core, Written, Fill, Laid;
    var t, front := Written(m, 16, f.upper), Front(16, f);
    var z := Zeros(NtoaDigits(m, 16, f), false, p, width, f);
    DigitsShown(m, 16, f);
    SixteenDigits(m, f);
    TextOfCore(m, false, 16, p, width, f);
    AlternativeCore(m, 16, p, width, f);
    ZerosLength(NtoaDigits(m, 16, f), false, p, width, f);
    var core, body := Core(m, false, 16, p, width, f), front + Extended(t, p);
    FillNone('0', 0, t);
    if p <= |t| {
      FillNone('0', p - |t|, t);
    } else if f.left {
      ShownInk(m, 16, f, p - |t|);
      LaidDiffers(true, width, core, body, |body| - 1);
    } else if p > 30 {
      LaidDiffers(false, width, core, body, 0);
    }
  }

  /** A 64-bit value has at most 16 hexadecimal digits. */
  lemma SixteenDigits(m: nat, f: Flags)
    requires m < 0x1_0000_0000_0000_0000
    ensures |Written(m, 16, f.upper)| <= 16
  {
    hide Written, Digits, Power;
    assert Power(16, 16) == 0x1_0000_0000_0000_0000 by {
      PowerSum(16, 8, 8);
      PowerSum(16, 4, 4);
      PowerSum(16, 2, 2);
      Sixteen();
    }
    DigitsShort(m, 16, f.upper, PRINTF_NTOA_BUFFER_SIZE, 16);
    SixtyFourBits(m, 16);
    DigitsWritten(m, 16, f.upper, PRINTF_NTOA_BUFFER_SIZE);
  }

  lemma Sixteen()
    ensures Power(16, 2) == 0x100
  {
    assert Power(16, 1) == 16 * Power(16, 0);
  }

  /** The alternative form of `o` with a precision: exactly if `-` keeps at most the zero in front out, or there are
      digits enough without zeros, or zeros fill the scratch buffer, where one too many is added otherwise. */
  lemma AlternativeOctal(m: nat, p: nat, width: nat, f: Flags)
    requires Alternative(m, 8, f) && f.precision && !f.zeroPad
    ensures var t := Written(m, 8, f.upper);
      var standard := Placed(false, f.left, width, "", if p > |t| then Extended(t, p) else "0" + t);
      NtoaText(m, false, 8, p, width, f) == standard <==> if f.left then p <= |t| + 1 else p <= |t| || p == 32
  {
    hide NtoaText, NtoaDigits, Zeros, Core, Written, Fill, Laid;
    var t := Written(m, 8, f.upper);
    var z := Zeros(NtoaDigits(m, 8, f), false, p, width, f);
    DigitsShown(m, 8, f);
    TextOfCore(m, false, 8, p, width, f);
    AlternativeCore(m, 8, p, width, f);
    ZerosLength(NtoaDigits(m, 8, f), false, p, width, f);
    var core, body := Core(m, false, 8, p, width, f), if p > |t| then Extended(t, p) else "0" + t;
    assert "" + body == body;
    FillNone('0', 0, t);
    if p > |t| {
      FillAt('0', p - |t|, t);
      if f.left && p == |t| + 1 {
        assert Fill('0', 1) == "0";
      } else if f.left {
        ShownInk(m, 8, f, p - |t|);
        LaidDiffers(true, width, core, body, |body| - 1);
      } else if p > 32 {
        LaidDiffers(false, width, core, body, 0);
      } else if p < 32 {
        LaidDiffers(false, width, body, core, 0);
      }
    }
  }

  /** The alternative form makes no difference for zero. */
  lemma HashOfZero(m: nat, negative: bool, base: nat, prec: nat, width: nat, f: Flags)
    requires 2 <= base <= 16
    ensures var g := if m == 0 then f.(hash := false) else f;
      NtoaText(m, negative, base, prec, width, f) == NtoaText(m, negative, base, prec, width, g)
  {
    hide Scratch, OutRevText, NtoaDigits, WidthLeft;
  }

  /** Zero in the alternative form of `o` with a precision. */
  lemma AlternativeZero(p: nat, width: nat, f: Flags)
    requires !f.plus && !f.space && f.precision && !f.zeroPad
    ensures var standard := Placed(false, f.left, width, "", if p == 0 then "0" else Fill('0', p));
      NtoaText(0, false, 8, p, width, f) == standard <==> !f.left && 1 <= p <= 32
  {
    hide NtoaDigits, Zeros, Core, Laid;
    var g := f.(hash := false);
    var z := Zeros(NtoaDigits(0, 8, g), false, p, width, g);
    DigitsShown(0, 8, g);
    HashOfZero(0, false, 8, p, width, f);
    hide NtoaText;
    TextOfCore(0, false, 8, p, width, g);
    PlainCore(0, false, 8, p, width, g);
    ZerosLength(NtoaDigits(0, 8, g), false, p, width, g);
    var core, body := Core(0, false, 8, p, width, g), if p == 0 then "0" else Fill('0', p);
    assert "" + body == body && core == Fill('0', |z|);
    if f.left {
      LaidDiffers(true, width, core, body, |body| - 1);
    } else if p == 0 || p > 32 {
      LaidDiffers(false, width, core, body, 0);
    }
  }

  // ---------- Integer conversions ----------

  function FlagsOf(s: Spec): Flags {
    Flags(Has(s, '0'), Has(s, '-'), Has(s, '+'), Has(s, ' '), Has(s, '#'), false,
          s.length == "hh", s.length == "hh" || s.length == "h",
          s.length == "l" || s.length == "ll" || s.length == "j" || s.length == "z" || s.length == "t",
          s.length == "ll", s.precision.Some?)
  }

  function PrecisionOf(s: Spec): nat {
    if s.precision.Some? then s.precision.value else 0
  }

  /** A conversion specification as the code has parsed it. */
  function DirectiveOf(s: Spec, rest: string, args: seq<Arg>): Directive {
    Directive(FlagsOf(s), s.width, PrecisionOf(s), [s.c] + rest, args)
  }

  predicate Hexadecimal(c: char) {
    c == 'x' || c == 'X'
  }

  predicate AlternativeForm(s: Spec, w: int) {
    Has(s, '#') && w != 0 && (Hexadecimal(s.c) || s.c == 'o')
  }

  predicate OctalForm(s: Spec) {
    s.c == 'o' && Has(s, '#')
  }

  /** Without a precision the code follows the standard if zeros fill a field of at most 32, and the alternative form
      is not in a field just as wide as its digits, nor, for `x`, in one of zeros that is one wider. */
  predicate ConformsPlain(s: Spec, w: int) {
    var n := |BareDigits(s, w)|;
    && (ZeroFilled(s) ==> s.width <= 32)
    && (AlternativeForm(s, w) ==> s.width != n && !(ZeroFilled(s) && Hexadecimal(s.c) && s.width == n + 1))
  }

  /** With a precision it does if that asks for no zeros where `-` is given, and otherwise for so few that they fit the
      scratch buffer with what is in front of them; and the alternative form of `o` needs none. */
  predicate ConformsPrecise(s: Spec, w: int, p: nat) {
    var n, left, sign := |BareDigits(s, w)|, Has(s, '-'), SignOf(s, w);
    if OctalForm(s) then
      if w == 0 then !left && 1 <= p <= 32 else if left then p <= n + 1 else p <= n || p == 32
    else if AlternativeForm(s, w) then (if left then p <= n else p <= 30)
    else PrecisionFits(left, p, n, sign, s.width)
  }

  /** `%hhd` prints a value that is not negative: plain `char` is unsigned on AArch64. */
  predicate Conforms(s: Spec, v: int) {
    var w := Argument(s, v);
    && (SignedConversion(s.c) && s.length == "hh" ==> w >= 0)
    && if s.precision.None? then ConformsPlain(s, w) else ConformsPrecise(s, w, s.precision.value)
  }

  /** The flags as the code looks at them, in the standard's terms. */
  lemma FlagsMean(s: Spec, w: int)
    requires Standard(s)
    ensures var g := IntegerFlags(s.c, FlagsOf(s));
      && IsInteger(s.c) && BaseOf(s.c) == RadixOf(s.c) && g.left == (Has(s, '-')) && g.upper == (s.c == 'X')
      && g.precision == s.precision.Some? && g.zeroPad == (Has(s, '0') && s.precision.None?)
      && g.hash == (Has(s, '#') && (Hexadecimal(s.c) || s.c == 'o'))
      && (g.hash && w != 0 <==> AlternativeForm(s, w))
      && (!SignedConversion(s.c) ==> !g.plus && !g.space)
      && Sign(w < 0, g) == SignOf(s, w)
      && (AlternativeForm(s, w) && Hexadecimal(s.c) ==> PrefixOf(s, w) == Front(16, g))
      && (!(AlternativeForm(s, w) && Hexadecimal(s.c)) ==> PrefixOf(s, w) == "")
  {
  }

  /** Two's complement is the one value in range. */
  lemma SignedIs(v: int, bits: nat)
    requires bits in {16, 32, 64}
    ensures Signed(v, bits) ==
      if bits == 16 then -0x8000 + (v + 0x8000) % 0x1_0000
      else if bits == 32 then -0x8000_0000 + (v + 0x8000_0000) % 0x1_0000_0000
      else -0x8000_0000_0000_0000 + (v + 0x8000_0000_0000_0000) % 0x1_0000_0000_0000_0000
  {
    if bits == 16 {
      HalfWrap(v, 0x8000);
    } else if bits == 32 {
      HalfWrap(v, 0x8000_0000);
    } else {
      HalfWrap(v, 0x8000_0000_0000_0000);
    }
  }

  lemma HalfWrap(v: int, half: nat)
    requires half > 0
    ensures var u := v % (2 * half); (v + half) % (2 * half) == if u >= half then u - half else u + half
  {
    var p := 2 * half;
    var u, q := v % p, v / p;
    assert v == p * q + u;
    if u >= half {
      SameRemainder(u - half, p, q + 1);
      assert p * (q + 1) == p * q + p;
    } else {
      SameRemainder(u + half, p, q);
    }
  }

  lemma SameRemainder(r: nat, p: nat, q: int)
    requires r < p
    ensures (r + p * q) % p == r
  {
    var x := r + p * q;
    assert x == p * (x / p) + x % p;
    SameMultiple(p, x / p, q);
  }

  /** The argument as the code reads it, in the standard's terms. */
  lemma ArgumentRead(s: Spec, v: int)
    requires IsLength(s.length)
    ensures var w, u := Argument(s, v), IntegerArg(s.c, FlagsOf(s), v);
      && (SignedConversion(s.c) && s.length == "hh" && w < 0 ==> u == w + 0x100)
      && (!(SignedConversion(s.c) && s.length == "hh" && w < 0) ==> u == w)
  {
    hide Signed, Has;
    if SignedConversion(s.c) {
      SignedIs(v, 16);
      SignedIs(v, 32);
      SignedIs(v, 64);
      HalfWrap(v, 0x80);
    }
  }

  lemma Minus(s: Spec, w: int)
    requires w < 0
    ensures '-' in IntegerField(s, w)
  {
    hide DigitsOf, PrefixOf, Fill;
    var x, digits := SignOf(s, w) + PrefixOf(s, w), DigitsOf(s, w);
    assert x[0] == '-';
    if ZeroFilled(s) {
      assert IntegerField(s, w)[0] == '-';
    } else {
      assert (x + digits)[0] == '-';
      LaidHolds(Has(s, '-'), s.width, x + digits);
    }
  }

  lemma LaidHolds(left: bool, width: nat, t: string)
    requires t != ""
    ensures t[0] in Laid(left, width, t)
  {
    var at := if left then 0 else |Laid(left, width, t)| - |t|;
    assert Laid(left, width, t)[at] == t[0];
  }

  /** A number that is not negative has no minus. */
  lemma NoMinus(m: nat, base: nat, prec: nat, width: nat, f: Flags)
    requires SmallBase(m, base) && !f.hash
    ensures '-' !in NtoaText(m, false, base, prec, width, f)
  {
    hide NtoaText, NtoaDigits, Zeros, Core, CodeDigits;
    var z := Zeros(NtoaDigits(m, base, f), false, prec, width, f);
    TextOfCore(m, false, base, prec, width, f);
    PlainCore(m, false, base, prec, width, f);
    ShownNoMinus(m, base, f);
  }

  lemma ShownNoMinus(m: nat, base: nat, f: Flags)
    requires 2 <= base <= 16
    ensures '-' !in CodeDigits(m, base, f)
  {
    hide Written;
    WrittenNoMinus(m, base, f.upper);
  }

  lemma {:induction false} WrittenNoMinus(m: nat, base: nat, upper: bool)
    requires 2 <= base <= 16
    ensures '-' !in Written(m, base, upper)
    decreases m
  {
    if m >= base {
      Shrinks(m, base);
      WrittenNoMinus(m / base, base, upper);
    }
  }

  lemma ShownDigits(s: Spec, w: int)
    requires Standard(s)
    ensures var g := IntegerFlags(s.c, FlagsOf(s)); var m := if w < 0 then -w else w;
      BareDigits(s, w) == CodeDigits(m, RadixOf(s.c), g)
  {
    hide Written;
    FlagsMean(s, w);
  }

  /** The standard's text by cases: without the alternative form, or for zero; of `x`; and of `o`. */
  lemma StandardPlain(s: Spec, w: int)
    requires Standard(s) && s.precision.None? && (!SignedConversion(s.c) ==> w >= 0)
    ensures var zero, left, t := ZeroFilled(s), Has(s, '-'), BareDigits(s, w);
      IntegerField(s, w) ==
        if !AlternativeForm(s, w) then Placed(zero, left, s.width, SignOf(s, w), t)
        else if s.c == 'o' then Placed(zero, left, s.width, "", "0" + t)
        else Placed(zero, left, s.width, PrefixOf(s, w), t)
  {
    hide Placed, Written, InOrder, Has;
    WrittenInk(if w < 0 then -w else w, RadixOf(s.c), s.c == 'X');
    var sign, prefix := SignOf(s, w), PrefixOf(s, w);
    assert sign + "" == sign && "" + prefix == prefix && "" + "" == "";
    ZeroWritten(RadixOf(s.c), s.c == 'X');
  }

  lemma ZeroWritten(base: nat, upper: bool)
    requires 2 <= base <= 16
    ensures Written(0, base, upper) == "0"
  {
  }

  /** The code's text for the conversion. */
  function CodeText(s: Spec, w: int): string {
    NtoaText(if w < 0 then -w else w, w < 0, RadixOf(s.c), PrecisionOf(s), s.width, IntegerFlags(s.c, FlagsOf(s)))
  }

  /** The value is one of the type the conversion names. */
  predicate HasType(s: Spec, w: int) {
    && Standard(s) && -0x8000_0000_0000_0000 <= w < 0x1_0000_0000_0000_0000 && (!SignedConversion(s.c) ==> w >= 0)
  }

  lemma PlainAlternative(s: Spec, w: int)
    requires HasType(s, w) && s.precision.None? && AlternativeForm(s, w)
    ensures CodeText(s, w) == IntegerField(s, w) <==> ConformsPlain(s, w)
  {
    FlagsMean(s, w);
    StandardPlain(s, w);
    hide IntegerFlags, FlagsOf, NtoaText, Placed, Written, SignOf, Sign, IntegerField, Standard, PrefixOf, Front,
      Has, HasType;
    AlternativeField(w, RadixOf(s.c), s.width, IntegerFlags(s.c, FlagsOf(s)));
  }

  lemma PlainOrdinary(s: Spec, w: int)
    requires HasType(s, w) && s.precision.None? && !AlternativeForm(s, w)
    ensures CodeText(s, w) == IntegerField(s, w) <==> ConformsPlain(s, w)
  {
    FlagsMean(s, w);
    StandardPlain(s, w);
    hide IntegerFlags, FlagsOf, NtoaText, Placed, Written, SignOf, Sign, IntegerField, Standard, PrefixOf, Front,
      Has, HasType;
    var g, base := IntegerFlags(s.c, FlagsOf(s)), RadixOf(s.c);
    var m: nat := if w < 0 then -w else w;
    HashOfZero(m, w < 0, base, 0, s.width, g);
    SignSame(w < 0, g);
    PlainField(m, w < 0, base, s.width, if m == 0 then g.(hash := false) else g);
  }

  lemma SignSame(negative: bool, f: Flags)
    ensures Sign(negative, f.(hash := false)) == Sign(negative, f)
  {
  }

  /** The standard's text with a precision. */
  lemma StandardPrecise(s: Spec, w: int)
    requires Standard(s) && s.precision.Some? && (!SignedConversion(s.c) ==> w >= 0)
    ensures var p, left, t := s.precision.value, Has(s, '-'), BareDigits(s, w);
      IntegerField(s, w) ==
        if OctalForm(s) then
          Placed(false, left, s.width, "", if p > |t| then Extended(t, p) else "0" + t)
        else if AlternativeForm(s, w) then Placed(false, left, s.width, PrefixOf(s, w), Extended(t, p))
        else Placed(false, left, s.width, SignOf(s, w), Extended(t, p))
  {
    hide Placed, BareDigits, InOrder, Has, Extended, IsLength;
    var sign, prefix := SignOf(s, w), PrefixOf(s, w);
    assert sign + "" == sign && "" + prefix == prefix && "" + "" == "";
    ExtendedFirst(s, w);
  }

  /** Whether a zero comes first. */
  lemma ExtendedFirst(s: Spec, w: int)
    requires s.precision.Some?
    ensures var p, t := s.precision.value, BareDigits(s, w); var u := Extended(t, p);
      if p > |t| then u != "" && u[0] == '0' else u == t && (t == "" || t[0] != '0')
  {
    hide Written, Fill;
    var p, t := s.precision.value, BareDigits(s, w);
    WrittenInk(if w < 0 then -w else w, RadixOf(s.c), s.c == 'X');
    if p > |t| {
      FillAt('0', p - |t|, t);
    } else {
      FillNone('0', p - |t|, t);
    }
  }

  lemma PreciseOctal(s: Spec, w: int)
    requires HasType(s, w) && s.precision.Some? && OctalForm(s)
    ensures CodeText(s, w) == IntegerField(s, w) <==> ConformsPrecise(s, w, s.precision.value)
  {
    FlagsMean(s, w);
    StandardPrecise(s, w);
    hide IntegerFlags, FlagsOf, NtoaText, Placed, Written, SignOf, Sign, IntegerField, Standard, PrefixOf, Front,
      Extended, Has, HasType;
    var g, p := IntegerFlags(s.c, FlagsOf(s)), s.precision.value;
    if w == 0 {
      FillEmpty(p);
      AlternativeZero(p, s.width, g);
    } else {
      AlternativeOctal(w, p, s.width, g);
    }
  }

  lemma FillEmpty(p: nat)
    ensures Extended("", p) == Fill('0', p) && "0" + "" == "0"
  {
  }

  lemma PreciseHex(s: Spec, w: int)
    requires HasType(s, w) && s.precision.Some? && !OctalForm(s) && AlternativeForm(s, w)
    ensures CodeText(s, w) == IntegerField(s, w) <==> ConformsPrecise(s, w, s.precision.value)
  {
    FlagsMean(s, w);
    StandardPrecise(s, w);
    hide IntegerFlags, FlagsOf, NtoaText, Placed, Written, SignOf, Sign, IntegerField, Standard, PrefixOf, Front,
      Extended, Has, HasType;
    AlternativeHex(w, s.precision.value, s.width, IntegerFlags(s.c, FlagsOf(s)));
  }

  lemma PreciseZero(s: Spec)
    requires HasType(s, 0) && s.precision.Some? && !OctalForm(s)
    ensures CodeText(s, 0) == IntegerField(s, 0) <==> ConformsPrecise(s, 0, s.precision.value)
  {
    FlagsMean(s, 0);
    StandardPrecise(s, 0);
    ShownDigits(s, 0);
    hide IntegerFlags, FlagsOf, NtoaText, Placed, Written, SignOf, Sign, IntegerField, Standard, PrefixOf, Front,
      BareDigits, CodeDigits, PrecisionFits, Extended, Has, HasType;
    var g, base, p := IntegerFlags(s.c, FlagsOf(s)), RadixOf(s.c), s.precision.value;
    HashOfZero(0, false, base, p, s.width, g);
    SignSame(false, g);
    ShownSame(0, base, g);
    PreciseField(0, false, base, p, s.width, g.(hash := false));
  }

  lemma PreciseOrdinary(s: Spec, w: int)
    requires HasType(s, w) && s.precision.Some? && !OctalForm(s) && !AlternativeForm(s, w) && w != 0
    ensures CodeText(s, w) == IntegerField(s, w) <==> ConformsPrecise(s, w, s.precision.value)
  {
    FlagsMean(s, w);
    StandardPrecise(s, w);
    ShownDigits(s, w);
    hide IntegerFlags, FlagsOf, NtoaText, Placed, Written, SignOf, Sign, IntegerField, Standard, PrefixOf, Front,
      BareDigits, CodeDigits, AlternativeForm, OctalForm, PrecisionFits, Extended, Has, HasType;
    var m: nat := if w < 0 then -w else w;
    PreciseField(m, w < 0, RadixOf(s.c), s.precision.value, s.width, IntegerFlags(s.c, FlagsOf(s)));
  }

  lemma ShownSame(m: nat, base: nat, f: Flags)
    requires 2 <= base <= 16
    ensures CodeDigits(m, base, f.(hash := false)) == CodeDigits(m, base, f)
  {
  }

  /** `%hhd` of a value whose byte is 128 or more prints it without its minus. */
  lemma NegativeByte(s: Spec, u: nat, w: int)
    requires HasType(s, u) && SignedConversion(s.c) && w < 0
    ensures CodeText(s, u) != IntegerField(s, w)
  {
    FlagsMean(s, u);
    hide IntegerFlags, FlagsOf, NtoaText, IntegerField, Standard;
    NoMinus(u, RadixOf(s.c), PrecisionOf(s), s.width, IntegerFlags(s.c, FlagsOf(s)));
    Minus(s, w);
  }

  /** An integer conversion prints what the standard says if and only if it is one that conforms. */
  lemma IntegerConforms(s: Spec, v: int, rest: string, args: seq<Arg>)
    requires Standard(s)
    ensures IntegerText(s.c, DirectiveOf(s, rest, args), v) == IntegerField(s, Argument(s, v)) <==> Conforms(s, v)
  {
    var w := Argument(s, v);
    ArgumentExactly(s, v);
    ArgumentRead(s, v);
    FlagsMean(s, w);
    hide IntegerFlags, FlagsOf, NtoaText, IntegerField, IntegerArg, Argument, ConformsPlain, ConformsPrecise;
    var u := IntegerArg(s.c, FlagsOf(s), v);
    assert IntegerText(s.c, DirectiveOf(s, rest, args), v) == CodeText(s, u);
    if u != w {
      NegativeByte(s, u, w);
    } else if s.precision.None? {
      if AlternativeForm(s, w) { PlainAlternative(s, w); } else { PlainOrdinary(s, w); }
    } else if OctalForm(s) {
      PreciseOctal(s, w);
    } else if AlternativeForm(s, w) {
      PreciseHex(s, w);
    } else if w == 0 {
      PreciseZero(s);
    } else {
      PreciseOrdinary(s, w);
    }
  }

  // ---------- Binary conversions ----------

  lemma QuotientAbove(m: nat, base: nat, p: nat)
    requires base > 0 && m >= base * p
    ensures m / base >= p
  {
    Divide(m, base);
    if m / base < p {
      ProductMonotone(base, base, m / base + 1, p);
    }
  }

  /** A number has at most n digits exactly if it is below base^n. */
  lemma {:induction false} WrittenLength(m: nat, base: nat, upper: bool, n: nat)
    requires 2 <= base <= 16 && n > 0
    ensures |Written(m, base, upper)| <= n <==> m < Power(base, n)
    decreases n
  {
    assert Power(base, n) == base * Power(base, n - 1);
    if m < base {
      PowerPositive(base, n - 1);
      ProductMonotone(base, base, 1, Power(base, n - 1));
    } else {
      Shrinks(m, base);
      if n > 1 {
        WrittenLength(m / base, base, upper, n - 1);
        if m < Power(base, n) {
          QuotientBelow(m, base, Power(base, n - 1));
        } else {
          QuotientAbove(m, base, Power(base, n - 1));
        }
      }
    }
  }

  lemma {:induction false} PowerPositive(base: nat, n: nat)
    requires base > 0
    ensures Power(base, n) >= 1
    decreases n
  {
    if n > 0 {
      PowerPositive(base, n - 1);
      ProductMonotone(1, base, 1, Power(base, n - 1));
    }
  }

  lemma BinaryLengths(w: nat)
    ensures |Written(w, 2, false)| <= 30 <==> w < 0x4000_0000
    ensures |Written(w, 2, false)| <= 32 <==> w < 0x1_0000_0000
  {
    assert Power(2, 32) == 0x1_0000_0000 && Power(2, 30) == 0x4000_0000 by {
      SixtyFourBits(0, 8);
      assert Power(2, 32) == 2 * Power(2, 31) && Power(2, 31) == 2 * Power(2, 30);
    }
    hide Written, Power;
    WrittenLength(w, 2, false, 30);
    WrittenLength(w, 2, false, 32);
  }

  /** The digits of a binary number, without a width. */
  lemma BinaryCore(w: nat, f: Flags)
    requires !f.precision && !f.plus && !f.space && !f.upper && (f.hash ==> w != 0)
    ensures var core := Core(w, false, 2, 0, 0, f);
      && |core| <= 32
      && (w < 0x4000_0000 || (w < 0x1_0000_0000 && !f.hash) ==>
          core == (if f.hash then "0b" else "") + Written(w, 2, false))
  {
    hide Reverse, Written, Digits, Power;
    var digits := NtoaDigits(w, 2, f);
    assert Zeros(digits, false, 0, 0, f) == digits by { assert digits + "" == digits; }
    ScratchFits(digits, false, 2, 0, 0, f);
    BinaryLengths(w);
    if w < 0x1_0000_0000 {
      SixtyFourBits(0, 8);
      DigitsWritten(w, 2, false, 32);
      assert digits + "" == digits && "" + Written(w, 2, false) == Written(w, 2, false);
      if f.hash && w < 0x4000_0000 {
        BinaryPrefix(digits);
        assert Prefixed(digits, 2, false) + "" == Prefixed(digits, 2, false);
        assert Scratch(digits, false, 2, 0, 0, f) == Prefixed(digits, 2, false);
      }
    }
  }

  lemma BinaryPrefix(t: string)
    requires |t| <= 30
    ensures Reverse(Prefixed(t, 2, false)) == "0b" + Reverse(t)
  {
    hide Reverse;
    ReverseSnoc(t, 'b');
    ReverseSnoc(t + ['b'], '0');
    TwoInFront('b', Reverse(t));
    assert "0b" == ['0', 'b'];
  }

  /** `%b`, which is not in the standard, without width and precision: the binary digits, behind `0b` in the
      alternative form unless zero, if and only if they fit the scratch buffer. */
  lemma BinaryConforms(s: Spec, v: int, rest: string, args: seq<Arg>)
    requires s.c == 'b' && s.width == 0 && s.precision.None? && IsLength(s.length)
    ensures var w := Argument(s, v);
      var binary := (if Has(s, '#') && w != 0 then "0b" else "") + Written(w, 2, false);
      IntegerText('b', DirectiveOf(s, rest, args), v) == binary <==>
        w < if Has(s, '#') then 0x4000_0000 else 0x1_0000_0000
  {
    hide IntegerArg, Argument, Written, NtoaText, Core, IntegerFlags, FlagsOf, Has, IsLength, Laid;
    var w := Argument(s, v);
    ArgumentRead(s, v);
    ArgumentExactly(s, v);
    BinaryFlags(s);
    var f := IntegerFlags('b', FlagsOf(s));
    BinaryText(w, f);
    assert IntegerText('b', DirectiveOf(s, rest, args), v) == NtoaText(w, false, 2, 0, 0, f);
  }

  lemma BinaryFlags(s: Spec)
    requires s.precision.None?
    ensures var f := IntegerFlags('b', FlagsOf(s));
      !f.precision && !f.plus && !f.space && !f.upper && f.hash == Has(s, '#')
  {
  }

  lemma BinaryText(w: nat, f: Flags)
    requires !f.precision && !f.plus && !f.space && !f.upper
    ensures NtoaText(w, false, 2, 0, 0, f) == (if f.hash && w != 0 then "0b" else "") + Written(w, 2, false) <==>
      w < if f.hash then 0x4000_0000 else 0x1_0000_0000
  {
    hide Written, NtoaText, Core;
    var g := if w == 0 then f.(hash := false) else f;
    var core := Core(w, false, 2, 0, 0, g);
    HashOfZero(w, false, 2, 0, 0, f);
    TextOfCore(w, false, 2, 0, 0, g);
    BinaryCore(w, g);
    BinaryLengths(w);
    FillNone(' ', 0 - |core|, core);
  }
}
