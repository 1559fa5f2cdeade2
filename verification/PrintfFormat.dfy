/**
 What the bundled printf prints for a format and its arguments: flags, width, precision and length are
 parsed, and integer, string and character conversions expanded.  A format is a C string without its
 terminator; a pointer into it is the rest of it.
 */
module PrintfFormat {
  import opened Options
  import opened Numerals
  import opened PrintfIntegers

  const NUL: char := '\0'

  const SIZE_MAX := 0xFFFF_FFFF_FFFF_FFFF

  /** A string without its terminator; it fits in memory. */
  predicate CString(s: string) {
    NUL !in s && |s| <= SIZE_MAX
  }

  /** The character a string pointer points to. */
  function Head(s: string): char {
    if s == "" then NUL else s[0]
  }

  /** An argument: an integer, which each conversion truncates to the type it names, or a string. */
  datatype Arg = Integer(v: int) | Text(s: string)

  const UINT_MAX1 := 0x1_0000_0000

  function Unsigned(v: int, bits: nat): (r: nat)
    requires bits in {8, 16, 32, 64}
  {
    v % (if bits == 8 then 0x100 else if bits == 16 then 0x1_0000 else if bits == 32 then 0x1_0000_0000
         else 0x1_0000_0000_0000_0000)
  }

  function Signed(v: int, bits: nat): int
    requires bits in {16, 32, 64}
  {
    var half := if bits == 16 then 0x8000 else if bits == 32 then 0x8000_0000 else 0x8000_0000_0000_0000;
    var u := Unsigned(v, bits);
    if u >= half then u - 2 * half else u
  }

  // ---------- Parsing ----------

  /** The part of a conversion parsed so far, and where parsing stands. */
  datatype Directive = Directive(f: Flags, width: nat, precision: nat, format: string, args: seq<Arg>)

  function SetFlag(c: char, f: Flags): Option<Flags> {
    match c
    case '0' => Some(f.(zeroPad := true))
    case '-' => Some(f.(left := true))
    case '+' => Some(f.(plus := true))
    case ' ' => Some(f.(space := true))
    case '#' => Some(f.(hash := true))
    case _ => None
  }

  function ParseFlags(s: string, f: Flags): (r: (Flags, string))
    ensures |r.1| <= |s|
  {
    if s != "" && SetFlag(s[0], f).Some? then ParseFlags(s[1..], SetFlag(s[0], f).value) else (f, s)
  }

  /** Decimal digits to an unsigned int, which wraps. */
  function Atoi(s: string, i: nat): (r: (nat, string))
    ensures |r.1| <= |s| && (i < UINT_MAX1 ==> r.0 < UINT_MAX1)
  {
    if s != "" && IsDigit(s[0])
    then Atoi(s[1..], (i * 10 + (s[0] as int - '0' as int)) % UINT_MAX1)
    else (i, s)
  }

  /** The int argument of a `*`. */
  function StarArg(args: seq<Arg>): Option<int> {
    if args != [] && args[0].Integer? then Some(Signed(args[0].v, 32)) else None
  }

  function ParseWidth(d: Directive): (r: Option<Directive>)
    ensures r.Some? ==> |r.value.format| <= |d.format| && r.value.width < UINT_MAX1
  {
    if IsDigit(Head(d.format)) then
      var (w, rest) := Atoi(d.format, 0);
      Some(d.(width := w, format := rest))
    else if Head(d.format) == '*' then
      var w := StarArg(d.args);
      if w.None? then None
      else if w.value < 0
      then Some(d.(f := d.f.(left := true), width := -w.value, format := d.format[1..], args := d.args[1..]))
      else Some(d.(width := w.value, format := d.format[1..], args := d.args[1..]))
    else Some(d.(width := 0))
  }

  function ParsePrecision(d: Directive): (r: Option<Directive>)
    ensures r.Some? ==> |r.value.format| <= |d.format| && (r.value.precision != 0 ==> r.value.f.precision)
    ensures r.Some? ==> r.value.precision < UINT_MAX1 && r.value.width == d.width
  {
    if Head(d.format) != '.' then Some(d.(precision := 0)) else
    var t, f := d.format[1..], d.f.(precision := true);
    if IsDigit(Head(t)) then
      var (p, rest) := Atoi(t, 0);
      Some(d.(f := f, precision := p, format := rest))
    else if Head(t) == '*' then
      var p := StarArg(d.args);
      if p.None? then None
      else Some(d.(f := f, precision := Max(p.value, 0), format := t[1..], args := d.args[1..]))
    else Some(d.(f := f, precision := 0, format := t))
  }

  /** The types a length character names, and doubled; `t`, `j` and `z` name types as wide as long. */
  function LengthFlags(c: char, twice: bool, f: Flags): Flags {
    f.(isLong := f.isLong || c == 'l' || c == 't' || c == 'j' || c == 'z',
       isLongLong := f.isLongLong || (c == 'l' && twice),
       isShort := f.isShort || c == 'h',
       isChar := f.isChar || (c == 'h' && twice))
  }

  /** How many characters the length field has. */
  function LengthSize(s: string): (n: nat)
    ensures n <= |s|
  {
    if Head(s) == 'l' || Head(s) == 'h' then (if Head(s[1..]) == Head(s) then 2 else 1)
    else if Head(s) == 't' || Head(s) == 'j' || Head(s) == 'z' then 1
    else 0
  }

  function ParseLength(d: Directive): (r: Directive)
    ensures |r.format| <= |d.format| && r.width == d.width
    ensures r.precision == d.precision && r.f.precision == d.f.precision
  {
    d.(f := LengthFlags(Head(d.format), LengthSize(d.format) == 2, d.f), format := d.format[LengthSize(d.format)..])
  }

  /** Everything between `%` and the conversion character. */
  function ParseDirective(s: string, args: seq<Arg>): (r: Option<Directive>)
    ensures r.Some? ==> |r.value.format| <= |s| && (r.value.precision != 0 ==> r.value.f.precision)
    ensures r.Some? ==> r.value.width < UINT_MAX1 && r.value.precision < UINT_MAX1
  {
    var (f, rest) := ParseFlags(s, NO_FLAGS);
    var w := ParseWidth(Directive(f, 0, 0, rest, args));
    if w.None? then None else
    var p := ParsePrecision(w.value);
    if p.None? then None else Some(ParseLength(p.value))
  }

  // ---------- Conversions ----------

  predicate IsInteger(c: char) {
    c == 'd' || c == 'i' || c == 'u' || c == 'x' || c == 'X' || c == 'o' || c == 'b'
  }

  predicate IsSigned(c: char) {
    c == 'd' || c == 'i'
  }

  function BaseOf(c: char): (base: nat)
    ensures 2 <= base <= 16
  {
    if c == 'x' || c == 'X' then 16 else if c == 'o' then 8 else if c == 'b' then 2 else 10
  }

  /** The flags an integer conversion pays attention to. */
  function IntegerFlags(c: char, f: Flags): Flags {
    f.(hash := f.hash && BaseOf(c) != 10,
       upper := f.upper || c == 'X',
       plus := f.plus && IsSigned(c),
       space := f.space && IsSigned(c),
       zeroPad := f.zeroPad && !f.precision)
  }

  /** The value of an integer argument in the type the conversion names.  On AArch64 plain `char` is
      unsigned, so `%hhd` prints 0 to 255. */
  function IntegerArg(c: char, f: Flags, v: int): int {
    if f.isLong || f.isLongLong then (if IsSigned(c) then Signed(v, 64) else Unsigned(v, 64))
    else if f.isChar then Unsigned(v, 8)
    else if f.isShort then (if IsSigned(c) then Signed(v, 16) else Unsigned(v, 16))
    else if IsSigned(c) then Signed(v, 32) else Unsigned(v, 32)
  }

  function Magnitude(v: int): nat {
    if v < 0 then -v else v
  }

  function IntegerText(c: char, d: Directive, v: int): string {
    var w := IntegerArg(c, d.f, v);
    NtoaText(Magnitude(w), w < 0, BaseOf(c), d.precision, d.width, IntegerFlags(c, d.f))
  }

  /** A text in a field of `width`, where it counts as `len` characters. */
  function InField(t: string, len: nat, f: Flags, width: nat): (r: string)
    ensures |r| == |t| + Max(width - len, 0)
  {
    if f.left then t + Fill(' ', width - len) else Fill(' ', width - len) + t
  }

  function Shown(s: string, d: Directive): string {
    if d.f.precision then s[..Min(|s|, d.precision)] else s
  }

  /** What is shown of a string, in its field.  Its length is kept in an unsigned int. */
  function StringText(s: string, d: Directive): string {
    InField(Shown(s, d), |Shown(s, d)| % UINT_MAX1, d.f, d.width)
  }

  function CharOf(v: int): char {
    Unsigned(v, 8) as char
  }

  /** What the conversion character at the head of the rest prints, and the arguments left.  Floating point
      and pointer conversions are not modelled. */
  function Convert(d: Directive): Option<(string, seq<Arg>)> {
    var c := Head(d.format);
    if d.format == "" || c in ['f', 'F', 'e', 'E', 'g', 'G', 'p'] then None
    else if IsInteger(c) then
      if d.args != [] && d.args[0].Integer? then Some((IntegerText(c, d, d.args[0].v), d.args[1..])) else None
    else if c == 'c' then
      if d.args != [] && d.args[0].Integer?
      then Some((InField([CharOf(d.args[0].v)], 1, d.f, d.width), d.args[1..])) else None
    else if c == 's' then
      if d.args != [] && d.args[0].Text? && CString(d.args[0].s)
      then Some((StringText(d.args[0].s, d), d.args[1..])) else None
    else Some(([c], d.args))
  }

  /** The whole output; none if the format ends inside a conversion, or the arguments do not match it. */
  function Format(s: string, args: seq<Arg>): Option<string>
    decreases |s|
  {
    if s == "" then Some("")
    else if s[0] != '%' then Prepend([s[0]], Format(s[1..], args))
    else
      var d := ParseDirective(s[1..], args);
      if d.None? then None else
      var t := Convert(d.value);
      if t.None? then None else Prepend(t.value.0, Format(d.value.format[1..], t.value.1))
  }

  function Prepend(t: string, r: Option<string>): Option<string> {
    if r.None? then None else Some(t + r.value)
  }

  // ---------- What conversions mean ----------

  lemma WrapStep(i: nat, j: nat, d: nat)
    requires i == j % UINT_MAX1
    ensures (i * 10 + d) % UINT_MAX1 == (j * 10 + d) % UINT_MAX1
  {
    var x := i * 10 + d;
    var q, k := j / UINT_MAX1, x / UINT_MAX1;
    assert j == i + UINT_MAX1 * q && x == x % UINT_MAX1 + UINT_MAX1 * k;
    assert j * 10 + d == x % UINT_MAX1 + UINT_MAX1 * (k + 10 * q);
    Remainder(x % UINT_MAX1, UINT_MAX1, k + 10 * q);
  }

  /** A width or precision is the number written, modulo 2^32. */
  lemma {:induction false} AtoiValue(s: string, i: nat, j: nat)
    requires i == j % UINT_MAX1
    ensures Atoi(s, i).0 == ReadDigits(s, 10, j) % UINT_MAX1
    decreases |s|
  {
    if s != "" && IsDigit(s[0]) {
      var d := s[0] as int - '0' as int;
      WrapStep(i, j, d);
      AtoiValue(s[1..], (i * 10 + d) % UINT_MAX1, j * 10 + d);
    }
  }

  lemma QuotientBelow(v: nat, base: nat, p: nat)
    requires base > 0 && v < base * p
    ensures v / base < p
  {
    Divide(v, base);
    if v / base >= p {
      ProductMonotone(base, base, p, v / base);
    }
  }

  /** A value below base^n has at most n digits. */
  lemma {:induction false} DigitsShort(v: nat, base: nat, upper: bool, room: nat, n: nat)
    requires 2 <= base <= 16 && room > 0 && n > 0 && v < Power(base, n)
    ensures |Digits(v, base, upper, room)| <= n
    decreases n
  {
    Divide(v, base);
    if v / base != 0 && room > 1 {
      QuotientBelow(v, base, Power(base, n - 1));
      DigitsShort(v / base, base, upper, room - 1, n - 1);
    }
  }

  lemma ArgBound(c: char, f: Flags, v: int)
    ensures Magnitude(IntegerArg(c, f, v)) < 0x1_0000_0000_0000_0000
  {
  }

  lemma TwentyTwoDigits(v: nat, base: nat)
    requires v < 0x1_0000_0000_0000_0000 && 8 <= base <= 16
    ensures v < Power(base, 22)
  {
    hide Power;
    PowerMonotone(8, base, 22);
    EightTo22();
  }

  lemma EightTo22()
    ensures Power(8, 22) == 0x4_0000_0000_0000_0000
  {
    assert Power(8, 2) == 64;
    assert Power(8, 4) == 0x1000 by { PowerSum(8, 2, 2); }
    assert Power(8, 8) == 0x100_0000 by { PowerSum(8, 4, 4); }
    assert Power(8, 16) == 0x1_0000_0000_0000 by { PowerSum(8, 8, 8); }
    assert Power(8, 6) == 0x4_0000 by { PowerSum(8, 4, 2); }
    PowerSum(8, 16, 6);
  }

  lemma DigitsAtMost(m: nat, base: nat, f: Flags)
    requires 8 <= base <= 16 && m < 0x1_0000_0000_0000_0000
    ensures |NtoaDigits(m, base, f)| <= 22
  {
    hide Digits, Power;
    TwentyTwoDigits(m, base);
    DigitsShort(m, base, f.upper, PRINTF_NTOA_BUFFER_SIZE, 22);
  }

  /** Decimal, octal and hexadecimal conversions can be read back, whatever type they name: the value always,
      and a minus sign exactly when digits and zeros leave room for it. */
  lemma IntegerRoundTrip(c: char, d: Directive, v: int)
    requires c == 'd' || c == 'i' || c == 'u' || c == 'o' || c == 'x' || c == 'X'
    requires !IntegerFlags(c, d.f).hash
    ensures var w := IntegerArg(c, d.f, v);
      var r := Read(IntegerText(c, d, v), if c == 'x' || c == 'X' then 16 else if c == 'o' then 8 else 10);
      && r.magnitude == Magnitude(w)
      && (r.negative == (w < 0) <==>
          w >= 0 || d.f.left || (d.precision < 32 && (IntegerFlags(c, d.f).zeroPad ==> d.width <= 32)))
  {
    hide IntegerArg, Read, Power, Zeros, Digits, NtoaText, NtoaDigits, Sign;
    var w, f := IntegerArg(c, d.f, v), IntegerFlags(c, d.f);
    var m, base := Magnitude(w), BaseOf(c);
    ArgBound(c, d.f, v);
    DigitsAtMost(m, base, f);
    SixtyFourBits(m, base);
    ReadBack(m, w < 0, base, d.precision, d.width, f);
    ReadBackExactly(m, w < 0, base, d.precision, d.width, f);
    ZerosLength(NtoaDigits(m, base, f), w < 0, d.precision, d.width, f);
  }

  /** Binary conversions print the value modulo 2^32, which loses the upper half of a 64-bit value. */
  lemma BinaryRoundTrip(d: Directive, v: int)
    requires !d.f.hash
    ensures Read(IntegerText('b', d, v), 2) == Number(false, IntegerArg('b', d.f, v) % 0x1_0000_0000)
  {
    hide Read, Power, Zeros, NtoaText;
    var w, f := IntegerArg('b', d.f, v), IntegerFlags('b', d.f);
    SixtyFourBits(0, 8);
    ReadBack(w, false, 2, d.precision, d.width, f);
  }

  /** Where the text is in its field. */
  lemma FieldAt(t: string, len: nat, f: Flags, width: nat)
    ensures var r := InField(t, len, f, width);
      var at := if f.left then 0 else |r| - |t|;
      r[at..at + |t|] == t && forall k :: 0 <= k < |r| && !(at <= k < at + |t|) ==> r[k] == ' '
  {
    hide Max;
  }

  /** When a field is as wide as it should be. */
  lemma FieldSize(t: string, f: Flags, width: nat)
    requires width < UINT_MAX1
    ensures var r := InField(t, |t| % UINT_MAX1, f, width); var fits := |t| < UINT_MAX1 || width <= |t| % UINT_MAX1;
      && (|r| == Max(width, |t|) <==> fits)
      && (!fits ==> |r| == |t| + width - |t| % UINT_MAX1)
  {
    hide InField;
  }

  lemma StringConverts(d: Directive, s: string)
    requires Head(d.format) == 's' && d.args == [Text(s)] && CString(s)
    ensures Convert(d) == Some((StringText(s, d), []))
  {
    hide StringText, IntegerText, InField;
    assert d.args[1..] == [];
  }

  /** `%s` shows the string up to the precision, with spaces on the side the flags say.  They make a field of
      exactly the width asked for or needed if and only if the precision or less than 2^32 characters bound
      the length, or what the length wraps to is no less than the width. */
  lemma StringField(d: Directive, s: string)
    requires Head(d.format) == 's' && d.args == [Text(s)] && CString(s)
    requires d.width < UINT_MAX1 && d.precision < UINT_MAX1
    ensures Convert(d).Some?
    ensures var t := Convert(d).value.0;
      var n := if d.f.precision then Min(|s|, d.precision) else |s|;
      var at := if d.f.left then 0 else |t| - n;
      var fits := d.f.precision || |s| < UINT_MAX1 || d.width <= |s| % UINT_MAX1;
      && |t| >= n
      && (|t| == Max(d.width, n) <==> fits)
      && (!fits ==> |t| == n + d.width - |s| % UINT_MAX1)
      && t[at..at + n] == s[..n]
      && forall k :: 0 <= k < |t| && !(at <= k < at + n) ==> t[k] == ' '
  {
    hide Convert;
    StringConverts(d, s);
    var n := if d.f.precision then Min(|s|, d.precision) else |s|;
    assert Shown(s, d) == s[..n];
    FieldAt(s[..n], n % UINT_MAX1, d.f, d.width);
    FieldSize(s[..n], d.f, d.width);
    hide InField;
  }

  lemma StarPrecision(d: Directive)
    requires |d.format| >= 2 && d.format[0] == '.' && d.format[1] == '*' && StarArg(d.args).Some?
    ensures ParsePrecision(d) == Some(d.(f := d.f.(precision := true), precision := Max(StarArg(d.args).value, 0),
      format := d.format[2..], args := d.args[1..]))
  {
    hide Max;
    assert d.format[1..][1..] == d.format[2..];
  }

  lemma LengthSame(d: Directive, e: Directive)
    requires e == d.(f := d.f.(precision := true))
    ensures ParseLength(e) == ParseLength(d).(f := ParseLength(d).f.(precision := true))
  {
    hide LengthSize;
  }

  /** A negative precision argument counts as zero, where the C standard (section 7.21.6.1 of C11) has it
      ignored: whatever the rest of the directive, it ends up as with the argument 0, and as without the
      precision except that one is given. */
  lemma NegativePrecision(d: Directive)
    requires |d.format| >= 2 && d.format[0] == '.' && d.format[1] == '*' && Head(d.format[2..]) != '.'
    requires StarArg(d.args).Some? && StarArg(d.args).value < 0 && !d.f.precision
    ensures ParsePrecision(d).Some? && ParsePrecision(d) == ParsePrecision(d.(args := [Integer(0)] + d.args[1..]))
    ensures ParsePrecision(d.(format := d.format[2..], args := d.args[1..])).Some?
    ensures var negative := ParseLength(ParsePrecision(d).value);
      var none := ParseLength(ParsePrecision(d.(format := d.format[2..], args := d.args[1..])).value);
      negative == none.(f := none.f.(precision := true)) && none.precision == 0 && !none.f.precision
  {
    var e := d.(args := [Integer(0)] + d.args[1..]);
    assert StarArg(e.args) == Some(0) && e.args[1..] == d.args[1..];
    StarPrecision(d);
    StarPrecision(e);
    var o := d.(format := d.format[2..], args := d.args[1..]);
    assert ParsePrecision(o) == Some(o.(precision := 0));
    LengthSame(o.(precision := 0), ParsePrecision(d).value);
    hide ParsePrecision, StarArg, ParseLength;
  }

  /** So a string is not shown; the output is that of the C standard if and only if the string is blank and
      within the field. */
  lemma NegativeHidesString(d: Directive, s: string)
    requires Head(d.format) == 's' && d.args == [Text(s)] && CString(s)
    requires d.width < UINT_MAX1 && d.precision == 0 && !d.f.precision
    ensures var negative := d.(f := d.f.(precision := true));
      && Convert(d).Some? && Convert(negative) == Some((Fill(' ', d.width), []))
      && (Convert(negative) == Convert(d) <==> |s| <= d.width && forall c <- s :: c == ' ')
  {
    hide Convert;
    var negative := d.(f := d.f.(precision := true));
    StringConverts(d, s);
    StringConverts(negative, s);
    assert Shown(s, negative) == "" && InField("", 0, negative.f, d.width) == Fill(' ', d.width);
    BlankField(s, d.f, d.width);
  }

  lemma BlankField(s: string, f: Flags, width: nat)
    requires width < UINT_MAX1
    ensures InField(s, |s| % UINT_MAX1, f, width) == Fill(' ', width) <==> |s| <= width && forall c <- s :: c == ' '
  {
    var r := InField(s, |s| % UINT_MAX1, f, width);
    var at := if f.left then 0 else |r| - |s|;
    FieldAt(s, |s| % UINT_MAX1, f, width);
    FieldSize(s, f, width);
    hide InField;
    if r == Fill(' ', width) {
      forall c <- s ensures c == ' ' {
        var k :| 0 <= k < |s| && s[k] == c;
        assert r[at..at + |s|][k] == r[at + k];
      }
    } else if |s| <= width && forall c <- s :: c == ' ' {
      forall k | 0 <= k < width ensures r[k] == ' ' {
        assert at <= k < at + |s| ==> r[k] == r[at..at + |s|][k - at] && s[k - at] in s;
      }
    }
  }

  /** And a number: the output is that of the C standard if and only if the number is not zero and no zeros were to
      fill its field. */
  lemma NegativeChangesNumber(c: char, d: Directive, v: int)
    requires IsInteger(c) && d.precision == 0 && !d.f.precision && !IntegerFlags(c, d.f).hash
    ensures var w, f := IntegerArg(c, d.f, v), IntegerFlags(c, d.f);
      IntegerText(c, d.(f := d.f.(precision := true)), v) == IntegerText(c, d, v) <==>
        w != 0 && (!f.zeroPad || f.left || d.width <= |NtoaDigits(Magnitude(w), BaseOf(c), f)| + |Sign(w < 0, f)|)
  {
    hide IntegerArg, NtoaText, NtoaDigits;
    var w, f := IntegerArg(c, d.f, v), IntegerFlags(c, d.f);
    SignFits(c, d.f, v);
    ZeroPrecisionExactly(Magnitude(w), w < 0, BaseOf(c), d.width, f);
    PreciseFlags(c, d.f);
    SameArg(c, d.f, v);
    hide IntegerFlags, Sign;
  }

  lemma PreciseFlags(c: char, f: Flags)
    requires !f.precision
    ensures IntegerFlags(c, f.(precision := true)) == IntegerFlags(c, f).(precision := true, zeroPad := false)
  {
  }

  lemma SameArg(c: char, f: Flags, v: int)
    ensures IntegerArg(c, f.(precision := true), v) == IntegerArg(c, f, v)
  {
  }

  /** A number with a sign has less than 32 digits. */
  lemma SignFits(c: char, f: Flags, v: int)
    requires IsInteger(c)
    ensures var w, g := IntegerArg(c, f, v), IntegerFlags(c, f);
      |NtoaDigits(Magnitude(w), BaseOf(c), g)| < PRINTF_NTOA_BUFFER_SIZE || Sign(w < 0, g) == ""
  {
    hide Digits, Power;
    var m := Magnitude(IntegerArg(c, f, v));
    if c != 'b' {
      ArgBound(c, f, v);
      DigitsAtMost(m, BaseOf(c), IntegerFlags(c, f));
    }
  }
}
