/**
 What the bundled printf prints for an integer, as a function of value, base, precision, width and flags,
 and what that means: the number can be read back, and the field has the width asked for, each exactly
 when the 32-byte scratch buffer suffices.
 */
module PrintfIntegers {
  import opened Numerals

  datatype Flags = Flags(zeroPad: bool, left: bool, plus: bool, space: bool, hash: bool, upper: bool,
                         isChar: bool, isShort: bool, isLong: bool, isLongLong: bool, precision: bool)

  const NO_FLAGS := Flags(false, false, false, false, false, false, false, false, false, false, false)

  /** The digits of a value in the scratch buffer; none for zero with an explicit precision. */
  function NtoaDigits(v: nat, base: nat, f: Flags): (s: string)
    requires 2 <= base <= 16
    ensures Numeral(s) && |s| <= PRINTF_NTOA_BUFFER_SIZE
  {
    if f.precision && v == 0 then "" else Digits(v, base, f.upper, PRINTF_NTOA_BUFFER_SIZE)
  }

  /** Pads with zeros up to `n` characters, as far as the scratch buffer goes. */
  function Padded(s: string, n: nat): string {
    s + Fill('0', Min(n, PRINTF_NTOA_BUFFER_SIZE) - |s|)
  }

  /** Zero padding keeps a place for the sign. */
  function WidthLeft(negative: bool, width: nat, f: Flags): nat {
    if !f.left && width > 0 && f.zeroPad && (negative || f.plus || f.space) then width - 1 else width
  }

  /** The digits with precision and width zeros. */
  function Zeros(digits: string, negative: bool, prec: nat, width: nat, f: Flags): string {
    if f.left then digits
    else if f.zeroPad then Padded(Padded(digits, prec), WidthLeft(negative, width, f))
    else Padded(digits, prec)
  }

  /** The prefix of the alternative form, backwards, as far as the scratch buffer goes. */
  function Prefixed(s: string, base: nat, upper: bool): string {
    var t := if |s| == PRINTF_NTOA_BUFFER_SIZE then s
             else if base == 16 then s + [if upper then 'X' else 'x']
             else if base == 2 then s + ['b'] else s;
    if |t| == PRINTF_NTOA_BUFFER_SIZE then t else t + ['0']
  }

  /** The alternative form: the prefix takes the place of up to two digits of a full field. */
  function Hashed(s: string, base: nat, prec: nat, width: nat, f: Flags): string {
    if !f.hash then s else
    var t := if !f.precision && s != "" && (|s| == prec || |s| == width)
             then s[..|s| - if |s| > 1 && base == 16 then 2 else 1] else s;
    Prefixed(t, base, f.upper)
  }

  function Sign(negative: bool, f: Flags): string {
    if negative then "-" else if f.plus then "+" else if f.space then " " else ""
  }

  /** Adds the sign unless the scratch buffer is full. */
  function WithSign(s: string, negative: bool, f: Flags): string {
    if |s| < PRINTF_NTOA_BUFFER_SIZE then s + Sign(negative, f) else s
  }

  /** The scratch buffer when a number is complete. */
  function Scratch(digits: string, negative: bool, base: nat, prec: nat, width: nat, f: Flags): string {
    WithSign(Hashed(Zeros(digits, negative, prec, width, f), base, prec, WidthLeft(negative, width, f), f), negative, f)
  }

  /** The scratch buffer the right way round, in a field of `width`. */
  function OutRevText(s: string, width: nat, f: Flags): string {
    (if !f.left && !f.zeroPad then Fill(' ', width - |s|) else "") + Reverse(s) +
    (if f.left then Fill(' ', width - |s|) else "")
  }

  /** What an integer conversion prints. */
  function NtoaText(v: nat, negative: bool, base: nat, prec: nat, width: nat, f: Flags): string
    requires 2 <= base <= 16
  {
    var g := if v == 0 then f.(hash := false) else f;
    OutRevText(Scratch(NtoaDigits(v, base, g), negative, base, prec, width, g), WidthLeft(negative, width, g), g)
  }

  // ---------- The scratch buffer ----------

  /** Whatever the flags, the scratch buffer is never overrun. */
  lemma ScratchFits(digits: string, negative: bool, base: nat, prec: nat, width: nat, f: Flags)
    requires |digits| <= PRINTF_NTOA_BUFFER_SIZE
    ensures |Zeros(digits, negative, prec, width, f)| <= PRINTF_NTOA_BUFFER_SIZE
    ensures |Scratch(digits, negative, base, prec, width, f)| <= PRINTF_NTOA_BUFFER_SIZE
  {
  }

  /** How many digits the value needs, and how many are printed before any width zeros. */
  function DigitCount(digits: string, prec: nat, f: Flags): nat {
    if f.left then |digits| else Max(|digits|, prec)
  }

  /** The number of zeros and digits in the scratch buffer. */
  lemma ZerosLength(digits: string, negative: bool, prec: nat, width: nat, f: Flags)
    requires |digits| <= PRINTF_NTOA_BUFFER_SIZE
    ensures |Zeros(digits, negative, prec, width, f)| ==
      Min(PRINTF_NTOA_BUFFER_SIZE,
          if f.left || !f.zeroPad then DigitCount(digits, prec, f)
          else Max(DigitCount(digits, prec, f), WidthLeft(negative, width, f)))
  {
  }

  /** The field is exactly as wide as asked for, or as the number needs, when that fits the scratch buffer or
      the padding is done with spaces around a number that leaves room for them; and only then. */
  lemma FieldWidthExactly(v: nat, negative: bool, base: nat, prec: nat, width: nat, f: Flags)
    requires 2 <= base <= 16 && !f.hash
    ensures var body := DigitCount(NtoaDigits(v, base, f), prec, f) + |Sign(negative, f)|;
      |NtoaText(v, negative, base, prec, width, f)| == Max(width, body) <==>
        Max(width, body) <= PRINTF_NTOA_BUFFER_SIZE || ((f.left || !f.zeroPad) && width >= body)
  {
    hide NtoaDigits, Zeros, Reverse;
    var digits := NtoaDigits(v, base, f);
    ZerosLength(digits, negative, prec, width, f);
  }

  /** The digits are at least as many as the precision asks for exactly when the number has them anyway, or
      the field is not left-adjusted and the scratch buffer holds them: with `-` the precision is ignored. */
  lemma PrecisionExactly(v: nat, negative: bool, base: nat, prec: nat, width: nat, f: Flags)
    requires 2 <= base <= 16 && !f.hash && !f.zeroPad
    ensures var digits := NtoaDigits(v, base, f);
      |Zeros(digits, negative, prec, width, f)| >= prec <==>
        |digits| >= prec || (!f.left && prec <= PRINTF_NTOA_BUFFER_SIZE)
  {
    hide NtoaDigits, Zeros;
    ZerosLength(NtoaDigits(v, base, f), negative, prec, width, f);
  }

  /** A sign that is due is dropped exactly when digits and zeros fill the scratch buffer. */
  lemma SignExactly(v: nat, negative: bool, base: nat, prec: nat, width: nat, f: Flags)
    requires 2 <= base <= 16 && !f.hash && Sign(negative, f) != ""
    ensures var digits := NtoaDigits(v, base, f);
      Scratch(digits, negative, base, prec, width, f) == Zeros(digits, negative, prec, width, f) <==>
        DigitCount(digits, prec, f) >= PRINTF_NTOA_BUFFER_SIZE ||
        (!f.left && f.zeroPad && width > PRINTF_NTOA_BUFFER_SIZE)
  {
    hide NtoaDigits, Zeros;
    var digits := NtoaDigits(v, base, f);
    ZerosLength(digits, negative, prec, width, f);
    var s := Zeros(digits, negative, prec, width, f);
    assert |s + Sign(negative, f)| > |s|;
  }

  // ---------- A precision of zero ----------

  /** The sign that is printed. */
  function KeptSign(z: string, negative: bool, f: Flags): string {
    if |z| < PRINTF_NTOA_BUFFER_SIZE then Sign(negative, f) else ""
  }

  /** The parts of a text: spaces, sign, zeros and digits, spaces. */
  lemma TextParts(v: nat, negative: bool, base: nat, width: nat, f: Flags)
    requires 2 <= base <= 16 && !f.hash
    ensures var z := Zeros(NtoaDigits(v, base, f), negative, 0, width, f);
      var sign := KeptSign(z, negative, f); var room := WidthLeft(negative, width, f) - |z| - |sign|;
      NtoaText(v, negative, base, 0, width, f) ==
        if f.left then sign + Reverse(z) + Fill(' ', room)
        else if f.zeroPad then sign + Reverse(z)
        else Fill(' ', room) + (sign + Reverse(z))
  {
    hide NtoaDigits, Zeros, Reverse, Sign, WidthLeft;
    var z := Zeros(NtoaDigits(v, base, f), negative, 0, width, f);
    SignLength(negative, width, f);
    ReverseSign(z, KeptSign(z, negative, f));
    assert z + "" == z;
    var t := KeptSign(z, negative, f) + Reverse(z);
    assert "" + t + "" == t && forall u: string :: "" + t + u == t + u && u + t + "" == u + t;
  }

  predicate IsSign(sign: string) {
    sign == "" || sign == "-" || sign == "+" || sign == " "
  }

  lemma SignLength(negative: bool, width: nat, f: Flags)
    ensures IsSign(Sign(negative, f)) && |Sign(negative, f)| <= 1
    ensures WidthLeft(negative, width, f) ==
      if !f.left && width > 0 && f.zeroPad then width - |Sign(negative, f)| else width
  {
  }

  lemma LastFirst(z: string)
    requires z != ""
    ensures Reverse(z)[0] == z[|z| - 1] && Reverse(z)[|z| - 1] == z[0]
  {
    FirstLast(z);
    hide Reverse;
    assert z == z[..|z| - 1] + [z[|z| - 1]];
    ReverseSnoc(z[..|z| - 1], z[|z| - 1]);
  }

  lemma FirstLast(z: string)
    requires z != ""
    ensures Reverse(z)[|z| - 1] == z[0]
  {
    assert |Reverse(z[1..])| == |z| - 1;
  }

  lemma NoPrecision(digits: string, n: int)
    requires |digits| <= PRINTF_NTOA_BUFFER_SIZE && n <= |digits|
    ensures Padded(digits, if n < 0 then 0 else n) == digits
  {
    assert digits + "" == digits;
  }

  /** Zero is printed without its digit. */
  lemma ZeroDiffers(negative: bool, base: nat, width: nat, f: Flags)
    requires 2 <= base <= 16 && !f.hash && !f.precision
    ensures NtoaText(0, negative, base, 0, width, f.(precision := true, zeroPad := false)) !=
            NtoaText(0, negative, base, 0, width, f)
  {
    hide NtoaText, Reverse, Sign, WidthLeft;
    var g := f.(precision := true, zeroPad := false);
    TextParts(0, negative, base, width, f);
    TextParts(0, negative, base, width, g);
    SignLength(negative, width, g);
    var digits := NtoaDigits(0, base, f);
    assert digits == "0";
    NoPrecision("", 0);
    NoPrecision("0", 0);
    var z := Zeros(digits, negative, 0, width, f);
    assert z != "" && z[0] == '0';
    LastFirst(z);
    assert Reverse("") == "" by { EmptyReverse(); }
    assert '0' in Reverse(z);
    assert '0' in NtoaText(0, negative, base, 0, width, f);
    assert '0' !in NtoaText(0, negative, base, 0, width, g);
  }

  lemma EmptyReverse()
    ensures Reverse("") == ""
  {
  }

  /** An explicit precision of zero changes the text of a number exactly when the number is zero, or zeros would
      have filled its field. */
  lemma ZeroPrecisionExactly(v: nat, negative: bool, base: nat, width: nat, f: Flags)
    requires 2 <= base <= 16 && !f.hash && !f.precision
    requires |NtoaDigits(v, base, f)| < PRINTF_NTOA_BUFFER_SIZE || Sign(negative, f) == ""
    ensures
      NtoaText(v, negative, base, 0, width, f.(precision := true, zeroPad := false)) ==
        NtoaText(v, negative, base, 0, width, f) <==>
      v != 0 && (!f.zeroPad || f.left || width <= |NtoaDigits(v, base, f)| + |Sign(negative, f)|)
  {
    hide NtoaText, NtoaDigits, Sign;
    if v == 0 {
      ZeroDiffers(negative, base, width, f);
    } else {
      PreciseDiffers(v, negative, base, width, f);
    }
  }

  lemma PreciseDiffers(v: nat, negative: bool, base: nat, width: nat, f: Flags)
    requires 2 <= base <= 16 && !f.hash && !f.precision && v != 0
    requires |NtoaDigits(v, base, f)| < PRINTF_NTOA_BUFFER_SIZE || Sign(negative, f) == ""
    ensures
      NtoaText(v, negative, base, 0, width, f.(precision := true, zeroPad := false)) ==
        NtoaText(v, negative, base, 0, width, f) <==>
      !f.zeroPad || f.left || width <= |NtoaDigits(v, base, f)| + |Sign(negative, f)|
  {
    hide NtoaText, Reverse, Digits, Padded, Fill, Zeros, Sign, IsSign;
    var g := f.(precision := true, zeroPad := false);
    var digits := NtoaDigits(v, base, f);
    TextParts(v, negative, base, width, f);
    TextParts(v, negative, base, width, g);
    SignLength(negative, width, f);
    SignLength(negative, width, g);
    SameSign(negative, f);
    ZerosNone(digits, negative, width, g);
    if !f.zeroPad || f.left {
      ZerosNone(digits, negative, width, f);
    } else {
      if width <= |digits| + |Sign(negative, f)| {
        NarrowField(digits, negative, width, f);
      } else {
        WideField(digits, negative, width, f);
      }
    }
  }

  lemma SameSign(negative: bool, f: Flags)
    ensures Sign(negative, f.(precision := true, zeroPad := false)) == Sign(negative, f)
  {
  }

  /** Neither precision nor width add zeros. */
  lemma ZerosNone(digits: string, negative: bool, width: nat, f: Flags)
    requires |digits| <= PRINTF_NTOA_BUFFER_SIZE && (!f.zeroPad || f.left)
    ensures Zeros(digits, negative, 0, width, f) == digits
  {
    hide Padded;
    NoPrecision(digits, 0);
  }

  /** The same digits in a field of spaces and in one of zeros. */
  predicate SameField(digits: string, negative: bool, width: nat, f: Flags) {
    var z := Zeros(digits, negative, 0, width, f);
    var sign := Sign(negative, f);
    Fill(' ', width - |digits| - |sign|) + (sign + Reverse(digits)) == KeptSign(z, negative, f) + Reverse(z)
  }

  lemma NarrowField(digits: string, negative: bool, width: nat, f: Flags)
    requires 0 < |digits| <= PRINTF_NTOA_BUFFER_SIZE && f.zeroPad && !f.left
    requires |digits| < PRINTF_NTOA_BUFFER_SIZE || Sign(negative, f) == ""
    requires width <= |digits| + |Sign(negative, f)|
    ensures SameField(digits, negative, width, f)
  {
    hide Reverse, Sign, Zeros, WidthLeft, Padded, Fill, IsSign;
    SignLength(negative, width, f);
    ZerosPlain(digits, negative, width, f);
    var sign := Sign(negative, f);
    NoPrecision(digits, WidthLeft(negative, width, f));
    NoSpaces(width - |digits| - |sign|, sign + Reverse(digits));
  }

  lemma WideField(digits: string, negative: bool, width: nat, f: Flags)
    requires 0 < |digits| <= PRINTF_NTOA_BUFFER_SIZE && f.zeroPad && !f.left
    requires |digits| < PRINTF_NTOA_BUFFER_SIZE || Sign(negative, f) == ""
    requires width > |digits| + |Sign(negative, f)|
    ensures !SameField(digits, negative, width, f)
  {
    hide Reverse, Sign, Zeros, WidthLeft, Padded, Fill, IsSign;
    SignLength(negative, width, f);
    ZerosPlain(digits, negative, width, f);
    var sign := Sign(negative, f);
    var z := Zeros(digits, negative, 0, width, f);
    PaddedLast(digits, WidthLeft(negative, width, f));
    if |z| > |digits| {
      SpacesOrZeros(width - |digits| - |sign|, sign, Reverse(digits), KeptSign(z, negative, f), z);
    } else {
      assert |Fill(' ', width - |digits| - |sign|) + (sign + Reverse(digits))| == width;
    }
  }

  lemma ZerosPlain(digits: string, negative: bool, width: nat, f: Flags)
    requires |digits| <= PRINTF_NTOA_BUFFER_SIZE && f.zeroPad && !f.left
    ensures Zeros(digits, negative, 0, width, f) == Padded(digits, WidthLeft(negative, width, f))
    ensures width == 0 ==> WidthLeft(negative, width, f) == 0
  {
    hide Padded;
    NoPrecision(digits, 0);
  }

  lemma NoSpaces(k: int, t: string)
    requires k <= 0
    ensures Fill(' ', k) + t == t
  {
  }

  lemma PaddedLast(digits: string, w: nat)
    ensures var z := Padded(digits, w);
      |z| == Max(|digits|, Min(w, PRINTF_NTOA_BUFFER_SIZE)) && (|z| > |digits| ==> z[|z| - 1] == '0')
  {
  }

  lemma SpacesOrZeros(k: nat, sign: string, r: string, kept: string, z: string)
    requires k >= 1 && IsSign(sign) && (kept == sign || kept == "") && z != "" && z[|z| - 1] == '0'
    ensures Fill(' ', k) + (sign + r) != kept + Reverse(z)
  {
    hide Reverse;
    LastFirst(z);
    var n := |kept|;
    assert (kept + Reverse(z))[n] == Reverse(z)[0];
    SpaceOrSign(k, sign, r, n);
  }

  lemma SpaceOrSign(k: nat, sign: string, r: string, n: nat)
    requires k >= 1 && IsSign(sign) && n <= |sign|
    ensures (Fill(' ', k) + (sign + r))[n] != '0'
  {
    if n >= k {
      assert (Fill(' ', k) + (sign + r))[n] == (sign + r)[0] == sign[0];
    }
  }

  // ---------- Reading back ----------

  lemma {:induction false} PaddedKeeps(s: string, n: nat, base: nat)
    requires Numeral(s) && InBase(s, base) && base >= 2
    ensures Numeral(Padded(s, n)) && InBase(Padded(s, n), base) && Value(Padded(s, n), base) == Value(s, base)
  {
    var k := Max(0, Min(n, PRINTF_NTOA_BUFFER_SIZE) - |s|);
    ValueZeros(s, k, base);
    assert Padded(s, n) == s + Fill('0', k);
    InBaseParts(s, Fill('0', k), base);
  }

  /** The zeros do not change the value. */
  lemma ZerosKeep(digits: string, negative: bool, prec: nat, width: nat, f: Flags, base: nat)
    requires Numeral(digits) && InBase(digits, base) && base >= 2
    ensures var s := Zeros(digits, negative, prec, width, f);
      Numeral(s) && InBase(s, base) && Value(s, base) == Value(digits, base)
  {
    hide Padded, Value, InBase, Numeral;
    PaddedKeeps(digits, prec, base);
    PaddedKeeps(Padded(digits, prec), WidthLeft(negative, width, f), base);
  }

  /** A signed numeral between spaces reads as its value. */
  lemma ReadField(z: string, sign: string, a: nat, b: nat, base: nat)
    requires Numeral(z) && InBase(z, base) && sign in ["", "-", "+", " "]
    ensures Read(Fill(' ', a) + Reverse(z + sign) + Fill(' ', b), base) == Number(sign == "-", Value(z, base))
  {
    hide Value, InBase, Numeral, ReadDigits, SkipSpaces;
    var digits := Reverse(z) + Fill(' ', b);
    SpacesEnd(b);
    ReadReversed(z, Fill(' ', b), base, 0);
    ReadNone("", base, 0);
    ReverseSign(z, sign);
    assert Fill(' ', a) + Reverse(z + sign) + Fill(' ', b) == Fill(' ', a) + (sign + digits);
    SkipFill(a, sign + digits);
    SkipDigits(z, b, base);
    if sign == " " {
      SkipFill(1, digits);
      assert Fill(' ', 1) == sign;
    } else if sign == "" {
      assert sign + digits == digits;
    } else {
      SkipNothing(sign + digits);
      assert (sign + digits)[1..] == digits;
    }
  }

  lemma SpacesEnd(n: nat)
    ensures NoDigit(Fill(' ', n))
    ensures SkipSpaces(Fill(' ', n)) == ""
  {
    SkipFill(n, "");
    assert Fill(' ', n) + "" == Fill(' ', n);
  }

  lemma SkipNothing(s: string)
    requires s == "" || s[0] != ' '
    ensures SkipSpaces(s) == s
  {
  }

  lemma ReverseSign(z: string, sign: string)
    requires |sign| <= 1
    ensures Reverse(z + sign) == sign + Reverse(z)
  {
    if sign == "" {
      assert z + sign == z && sign + Reverse(z) == Reverse(z);
    } else {
      assert sign == [sign[0]];
      ReverseSnoc(z, sign[0]);
    }
  }

  /** Spaces behind the digits end the number; without digits nothing is read. */
  lemma SkipDigits(z: string, b: nat, base: nat)
    requires Numeral(z) && InBase(z, base)
    ensures var t := SkipSpaces(Reverse(z) + Fill(' ', b));
      && (t == "" || (t[0] != '-' && t[0] != '+'))
      && ReadDigits(t, base, 0) == ReadDigits(Reverse(z) + Fill(' ', b), base, 0)
  {
    hide Value, InBase, ReadDigits;
    var s := Reverse(z) + Fill(' ', b);
    SpacesEnd(b);
    ReadNone("", base, 0);
    ReadReversed(z, Fill(' ', b), base, 0);
    if z == "" {
      assert s == Fill(' ', b);
      ReadNone(s, base, 0);
    } else {
      assert z == z[..|z| - 1] + [z[|z| - 1]];
      ReverseSnoc(z[..|z| - 1], z[|z| - 1]);
      assert s[0] == z[|z| - 1] && z[|z| - 1] in z;
      SkipNothing(s);
    }
  }

  /** Whatever precision, width and flags (but not the alternative form): reading the output back gives the
      value modulo base^32, and the sign if it was printed. */
  lemma ReadBack(v: nat, negative: bool, base: nat, prec: nat, width: nat, f: Flags)
    requires 2 <= base <= 16 && !f.hash
    ensures Power(base, 32) > 0
    ensures var z := Zeros(NtoaDigits(v, base, f), negative, prec, width, f);
      Read(NtoaText(v, negative, base, prec, width, f), base) ==
        Number(negative && |z| < PRINTF_NTOA_BUFFER_SIZE, v % Power(base, 32))
  {
    hide Value, InBase, Numeral, Read, Zeros, Reverse, Power, Fill;
    var digits := NtoaDigits(v, base, f);
    DigitsPrinted(v, base, f);
    ZerosKeep(digits, negative, prec, width, f, base);
    var z := Zeros(digits, negative, prec, width, f);
    var sign := if |z| < PRINTF_NTOA_BUFFER_SIZE then Sign(negative, f) else "";
    var s := Scratch(digits, negative, base, prec, width, f);
    var w := WidthLeft(negative, width, f);
    assert s == z + sign;
    var a := if !f.left && !f.zeroPad then Max(w - |s|, 0) else 0;
    var b := if f.left then Max(w - |s|, 0) else 0;
    ReadField(z, sign, a, b, base);
    FillNegative(w - |s|);
    assert OutRevText(s, w, f) == Fill(' ', a) + Reverse(s) + Fill(' ', b);
  }

  lemma FillNegative(n: int)
    ensures Fill(' ', n) == Fill(' ', Max(n, 0)) && Fill(' ', 0) == ""
  {
  }

  lemma DigitsPrinted(v: nat, base: nat, f: Flags)
    requires 2 <= base <= 16
    ensures var s := NtoaDigits(v, base, f);
      InBase(s, base) && Power(base, 32) > 0 && Value(s, base) == v % Power(base, 32)
  {
    hide Digits, Power;
    DigitsValue(v, base, f.upper, PRINTF_NTOA_BUFFER_SIZE);
    DigitsInBase(v, base, f.upper, PRINTF_NTOA_BUFFER_SIZE);
    if f.precision && v == 0 {
      Remainder(0, Power(base, 32), 0);
    }
  }

  /** The value survives exactly when it has at most 32 digits. */
  lemma ReadBackExactly(v: nat, negative: bool, base: nat, prec: nat, width: nat, f: Flags)
    requires 2 <= base <= 16 && !f.hash
    ensures Read(NtoaText(v, negative, base, prec, width, f), base).magnitude == v <==> v < Power(base, 32)
  {
    hide Power, NtoaText, Read, Zeros;
    ReadBack(v, negative, base, prec, width, f);
    Divide(v, Power(base, 32));
    if v < Power(base, 32) {
      Remainder(v, Power(base, 32), 0);
    }
  }

  lemma ProductMonotone(a: nat, b: nat, p: nat, q: nat)
    requires 0 < a <= b && 0 < p <= q
    ensures 0 < a * p <= b * q
  {
    assert a * p <= a * q;
    assert a * q <= b * q;
  }

  lemma {:induction false} PowerMonotone(a: nat, b: nat, n: nat)
    requires 0 < a <= b
    ensures 0 < Power(a, n) <= Power(b, n)
    decreases n
  {
    if n > 0 {
      PowerMonotone(a, b, n - 1);
      ProductMonotone(a, b, Power(a, n - 1), Power(b, n - 1));
    }
  }

  lemma AssociateProduct(a: nat, b: nat, c: nat)
    ensures a * (b * c) == (a * b) * c
  {
  }

  lemma {:induction false} PowerSum(base: nat, m: nat, n: nat)
    ensures Power(base, m + n) == Power(base, m) * Power(base, n)
    decreases m
  {
    if m > 0 {
      PowerSum(base, m - 1, n);
      AssociateProduct(base, Power(base, m - 1), Power(base, n));
    }
  }

  lemma PowerThirtyTwo(base: nat, p4: nat, p8: nat, p16: nat)
    requires base * base * base * base == p4 && p4 * p4 == p8 && p8 * p8 == p16
    ensures Power(base, 32) == p16 * p16
  {
    assert Power(base, 2) == base * Power(base, 1) == base * base;
    PowerSum(base, 2, 2);
    AssociateProduct(base * base, base, base);
    PowerSum(base, 4, 4);
    PowerSum(base, 8, 8);
    PowerSum(base, 16, 16);
  }

  /** 64-bit values survive in octal, decimal and hexadecimal; in binary those below 2^32 do. */
  lemma SixtyFourBits(v: nat, base: nat)
    requires v < 0x1_0000_0000_0000_0000 && 8 <= base <= 16
    ensures v < Power(base, 32)
    ensures Power(2, 32) == 0x1_0000_0000
  {
    hide Power;
    PowerMonotone(8, base, 32);
    PowerThirtyTwo(8, 0x1000, 0x100_0000, 0x1_0000_0000_0000);
    PowerThirtyTwo(2, 0x10, 0x100, 0x1_0000);
  }
}
