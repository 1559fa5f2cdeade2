/**
 Whole formats: plain text, and conversion specifications written out with their flags, width, precision and
 length.  They are parsed as what they say, and print what the C standard (section 7.21.6.1 of C11) says exactly
 when they are ones that module PrintfStandard calls conforming.
 */
module PrintfSpecs {
  import opened Options
  import opened Numerals
  import opened PrintfIntegers
  import opened PrintfFormat
  import opened PrintfStandard

  // ---------- Parsing ----------

  /** A width as it is written; none for 0. */
  function WidthText(n: nat): string {
    if n == 0 then "" else Written(n, 10, false)
  }

  function PrecisionText(p: Option<nat>): string {
    if p.None? then "" else "." + Written(p.value, 10, false)
  }

  /** Neither flag, width nor precision begins with this. */
  predicate NoField(c: char) {
    !IsFlag(c) && !('0' <= c <= '9') && c != '*' && c != '.'
  }

  /** Nor a length modifier: the character is the conversion. */
  predicate Conversion(c: char) {
    NoField(c) && c != 'h' && c != 'l' && c != 'j' && c != 'z' && c != 't'
  }

  /** What stands behind `%` for a conversion specification. */
  function SpecText(s: Spec): string {
    s.flags + (WidthText(s.width) + (PrecisionText(s.precision) + (s.length + [s.c])))
  }

  /** Flags with those that occur in a text set as well. */
  function WithFlags(f: Flags, fs: string): Flags {
    f.(zeroPad := f.zeroPad || '0' in fs, left := f.left || '-' in fs, plus := f.plus || '+' in fs,
       space := f.space || ' ' in fs, hash := f.hash || '#' in fs)
  }

  lemma OneFlag(c: char, f: Flags)
    ensures SetFlag(c, f) == if IsFlag(c) then Some(WithFlags(f, [c])) else None
  {
  }

  lemma MoreFlags(f: Flags, c: char, fs: string)
    ensures WithFlags(WithFlags(f, [c]), fs) == WithFlags(f, [c] + fs)
  {
  }

  /** A run of flag characters sets the flags that occur in it and no others. */
  lemma {:induction false} FlagsParsed(fs: string, rest: string, f: Flags)
    requires Flagged(fs) && !IsFlag(Head(rest))
    ensures ParseFlags(fs + rest, f) == (WithFlags(f, fs), rest)
    decreases |fs|
  {
    hide SetFlag, WithFlags, IsFlag;
    if fs == "" {
      assert fs + rest == rest && WithFlags(f, "") == f by { NoFlags(f); }
      OneFlag(Head(rest), f);
    } else {
      OneFlag(fs[0], f);
      FlagsParsed(fs[1..], rest, WithFlags(f, [fs[0]]));
      MoreFlags(f, fs[0], fs[1..]);
      assert (fs + rest)[1..] == fs[1..] + rest && [fs[0]] + fs[1..] == fs;
    }
  }

  lemma NoFlags(f: Flags)
    ensures WithFlags(f, "") == f
  {
  }

  lemma DigitParsed(d: nat, tail: string, i: nat)
    requires d < 10
    ensures Atoi([Symbol(d, false)] + tail, i) == Atoi(tail, (i * 10 + d) % 0x1_0000_0000)
  {
    assert ([Symbol(d, false)] + tail)[1..] == tail;
  }

  /** A number that is written is read. */
  lemma {:induction false} NumberParsed(n: nat, tail: string)
    requires n < 0x1_0000_0000
    ensures Atoi(Written(n, 10, false) + tail, 0) == Atoi(tail, n)
    decreases n
  {
    hide Atoi, Symbol;
    if n < 10 {
      DigitParsed(n, tail, 0);
    } else {
      Shrinks(n, 10);
      var d := Symbol(n % 10, false);
      NumberParsed(n / 10, [d] + tail);
      DigitParsed(n % 10, tail, n / 10);
      assert (Written(n / 10, 10, false) + [d]) + tail == Written(n / 10, 10, false) + ([d] + tail);
    }
  }

  lemma {:induction false} WrittenHead(n: nat)
    ensures var c := Written(n, 10, false)[0]; '0' <= c <= '9' && (n > 0 ==> c != '0')
    decreases n
  {
    if n >= 10 {
      Shrinks(n, 10);
      WrittenHead(n / 10);
    }
  }

  lemma WidthParsed(n: nat, d: Directive, tail: string)
    requires n < 0x1_0000_0000 && d.format == WidthText(n) + tail
    requires !IsDigit(Head(tail)) && Head(tail) != '*'
    ensures ParseWidth(d) == Some(d.(width := n, format := tail))
  {
    hide Written, StarArg;
    if n == 0 {
      assert d.format == tail;
    } else {
      WrittenHead(n);
      NumberParsed(n, tail);
    }
  }

  lemma PrecisionParsed(p: Option<nat>, d: Directive, tail: string)
    requires p.Some? ==> p.value < 0x1_0000_0000
    requires d.format == PrecisionText(p) + tail
    requires if p.None? then Head(tail) != '.' else !IsDigit(Head(tail))
    ensures ParsePrecision(d) ==
      Some(d.(f := d.f.(precision := d.f.precision || p.Some?), precision := if p.Some? then p.value else 0,
              format := tail))
  {
    hide Written, StarArg;
    if p.None? {
      assert d.format == tail;
    } else {
      assert d.format[1..] == Written(p.value, 10, false) + tail;
      WrittenHead(p.value);
      NumberParsed(p.value, tail);
    }
  }

  /** The flags a length field sets. */
  function WithLength(f: Flags, ls: string): Flags {
    f.(isChar := f.isChar || ls == "hh", isShort := f.isShort || ls == "hh" || ls == "h",
       isLong := f.isLong || ls == "l" || ls == "ll" || ls == "j" || ls == "z" || ls == "t",
       isLongLong := f.isLongLong || ls == "ll")
  }

  lemma LengthFound(ls: string, tail: string)
    requires IsLength(ls) && Conversion(Head(tail))
    ensures LengthSize(ls + tail) == |ls|
    ensures Head(ls + tail) == if ls == "" then Head(tail) else ls[0]
  {
    hide NoField;
    if ls == "" {
      assert ls + tail == tail;
    } else if |ls| == 1 {
      assert (ls + tail)[1..] == tail;
    } else {
      assert (ls + tail)[1..] != "" && (ls + tail)[1..][0] == ls[1];
    }
  }

  lemma LengthNamed(ls: string, c: char, f: Flags)
    requires IsLength(ls) && if ls == "" then Conversion(c) else c == ls[0]
    ensures LengthFlags(c, |ls| == 2, f) == WithLength(f, ls)
  {
    hide NoField;
  }

  lemma LengthParsed(ls: string, d: Directive, tail: string)
    requires IsLength(ls) && d.format == ls + tail && Conversion(Head(tail))
    ensures ParseLength(d) == d.(f := WithLength(d.f, ls), format := tail)
  {
    hide LengthSize, LengthFlags, IsLength, Conversion, WithLength;
    LengthFound(ls, tail);
    LengthNamed(ls, Head(d.format), d.f);
    assert d.format[|ls|..] == tail;
  }

  predicate Specification(s: Spec) {
    InOrder(s) && IsLength(s.length) && Conversion(s.c)
  }

  /** What the parts of a specification begin with. */
  lemma Heads(s: Spec, rest: string)
    requires Specification(s)
    ensures var t3 := [s.c] + rest; var t2 := s.length + t3; var t1 := PrecisionText(s.precision) + t2;
      && Conversion(Head(t3)) && NoField(Head(t2))
      && !IsFlag(Head(t1)) && !IsDigit(Head(t1)) && Head(t1) != '*'
      && !IsFlag(Head(WidthText(s.width) + t1))
  {
    hide Written, InOrder;
    var t3 := [s.c] + rest;
    var t2 := s.length + t3;
    var t1 := PrecisionText(s.precision) + t2;
    WrittenHead(s.width);
    assert s.length == "" ==> t2 == t3;
    assert s.precision.None? ==> t1 == t2;
    assert s.width == 0 ==> WidthText(s.width) + t1 == t1;
  }

  /** Width, precision and length field behind the flags. */
  lemma FieldsParsed(s: Spec, f: Flags, rest: string, args: seq<Arg>)
    requires Specification(s)
    ensures var t := WidthText(s.width) + (PrecisionText(s.precision) + (s.length + ([s.c] + rest)));
      var w := ParseWidth(Directive(f, 0, 0, t, args));
      && w.Some? && ParsePrecision(w.value).Some?
      && ParseLength(ParsePrecision(w.value).value) ==
         Directive(WithLength(f.(precision := f.precision || s.precision.Some?), s.length),
                   s.width, PrecisionOf(s), [s.c] + rest, args)
  {
    Heads(s, rest);
    hide ParseWidth, ParsePrecision, ParseLength, WidthText, PrecisionText, Written, IsLength, Conversion, WithLength,
      Flagged;
    var t3 := [s.c] + rest;
    var t2 := s.length + t3;
    var t1 := PrecisionText(s.precision) + t2;
    var d0 := Directive(f, 0, 0, WidthText(s.width) + t1, args);
    WidthParsed(s.width, d0, t1);
    var d1 := d0.(width := s.width, format := t1);
    PrecisionParsed(s.precision, d1, t2);
    LengthParsed(s.length, ParsePrecision(d1).value, t3);
  }

  /** Whatever comes behind it, a specification is parsed as what it says. */
  lemma SpecParsed(s: Spec, rest: string, args: seq<Arg>)
    requires Specification(s)
    ensures ParseDirective(SpecText(s) + rest, args) == Some(DirectiveOf(s, rest, args))
  {
    var t := WidthText(s.width) + (PrecisionText(s.precision) + (s.length + ([s.c] + rest)));
    assert SpecText(s) + rest == s.flags + t;
    Heads(s, rest);
    FlagsTogether(s);
    hide ParseFlags, ParseWidth, ParsePrecision, ParseLength, WidthText, PrecisionText, Written, IsLength, Conversion,
      Flagged, NoField, SpecText, FlagsOf, WithFlags, WithLength;
    FlagsParsed(s.flags, t, NO_FLAGS);
    FieldsParsed(s, WithFlags(NO_FLAGS, s.flags), rest, args);
  }

  lemma FlagsTogether(s: Spec)
    ensures var f := WithFlags(NO_FLAGS, s.flags);
      WithLength(f.(precision := f.precision || s.precision.Some?), s.length) == FlagsOf(s)
  {
  }

  // ---------- Formats ----------

  /** A conversion specification in a format prints what its conversion makes of it, and then comes the rest. */
  lemma SpecConverted(s: Spec, rest: string, args: seq<Arg>)
    requires Specification(s)
    ensures Format("%" + (SpecText(s) + rest), args) ==
      var t := Convert(DirectiveOf(s, rest, args));
      if t.None? then None else Prepend(t.value.0, Format(rest, t.value.1))
  {
    SpecParsed(s, rest, args);
    hide ParseDirective, SpecText, Convert, FlagsOf, Specification;
    assert ("%" + (SpecText(s) + rest))[1..] == SpecText(s) + rest;
    assert ([s.c] + rest)[1..] == rest;
  }

  lemma PrependSame(t: string, u: string, r: Option<string>)
    ensures Prepend(t, r) == Prepend(u, r) <==> r.None? || t == u
  {
    if r.Some? && t + r.value == u + r.value {
      assert |t| == |u|;
      assert t == (t + r.value)[..|t|] == (u + r.value)[..|u|] == u;
    }
  }

  lemma IntegerConverts(s: Spec, v: int, rest: string, args: seq<Arg>)
    requires Standard(s)
    ensures var d := DirectiveOf(s, rest, [Integer(v)] + args);
      Convert(d) == Some((IntegerText(s.c, d, v), args))
  {
    hide IntegerText, FlagsOf, InOrder, IsLength;
    assert ([Integer(v)] + args)[1..] == args;
  }

  /** An integer conversion in a format prints the standard's text if and only if it conforms. */
  lemma FormatInteger(s: Spec, v: int, rest: string, args: seq<Arg>)
    requires Standard(s)
    ensures var standard := Prepend(IntegerField(s, Argument(s, v)), Format(rest, args));
      Format("%" + (SpecText(s) + rest), [Integer(v)] + args) == standard <==>
        Format(rest, args).None? || Conforms(s, v)
  {
    hide Format, IntegerText, IntegerField, Argument, Conforms, SpecText, Prepend, Convert, DirectiveOf;
    var all := [Integer(v)] + args;
    SpecConverted(s, rest, all);
    IntegerConverts(s, v, rest, args);
    IntegerConforms(s, v, rest, all);
    PrependSame(IntegerText(s.c, DirectiveOf(s, rest, all), v), IntegerField(s, Argument(s, v)), Format(rest, args));
  }

  /** Text without `%` prints itself. */
  lemma {:induction false} FormatPlain(t: string, rest: string, args: seq<Arg>)
    requires '%' !in t
    ensures Format(t + rest, args) == Prepend(t, Format(rest, args))
    decreases |t|
  {
    hide ParseDirective, Convert;
    if t == "" {
      assert t + rest == rest;
      assert Format(rest, args).Some? ==> "" + Format(rest, args).value == Format(rest, args).value;
    } else {
      FormatPlain(t[1..], rest, args);
      assert (t + rest)[1..] == t[1..] + rest;
      var r := Format(rest, args);
      assert r.Some? ==> [t[0]] + (t[1..] + r.value) == t + r.value;
    }
  }

  /** A format without `%` prints itself, whatever the arguments. */
  lemma FormatItself(t: string, args: seq<Arg>)
    requires '%' !in t
    ensures Format(t, args) == Some(t)
  {
    FormatPlain(t, "", args);
    assert t + "" == t && Format("", args) == Some("");
  }

  lemma PercentConverts(s: Spec, rest: string, args: seq<Arg>)
    requires s.c == '%'
    ensures Convert(DirectiveOf(s, rest, args)) == Some(("%", args))
  {
    hide IntegerText, StringText, FlagsOf;
  }

  lemma PercentText()
    ensures SpecText(Spec("", 0, None, "", '%')) == "%"
  {
    hide Written;
  }

  /** `%%` prints one `%`. */
  lemma FormatPercent(rest: string, args: seq<Arg>)
    ensures Format("%%" + rest, args) == Prepend("%", Format(rest, args))
  {
    hide Format, Convert, SpecText, DirectiveOf, Prepend;
    var s := Spec("", 0, None, "", '%');
    SpecConverted(s, rest, args);
    PercentConverts(s, rest, args);
    PercentText();
    assert "%" + ("%" + rest) == "%%" + rest;
  }

  lemma CharConverts(s: Spec, v: int, rest: string, args: seq<Arg>)
    requires s.c == 'c'
    ensures Convert(DirectiveOf(s, rest, [Integer(v)] + args)) ==
      Some((Laid(Has(s, '-'), s.width, [(v % 0x100) as char]), args))
  {
    hide IntegerText, StringText;
    assert ([Integer(v)] + args)[1..] == args;
  }

  /** `%c` prints its argument as an unsigned char on its side of the field. */
  lemma FormatChar(s: Spec, v: int, rest: string, args: seq<Arg>)
    requires Specification(s) && s.c == 'c'
    ensures Format("%" + (SpecText(s) + rest), [Integer(v)] + args) ==
      Prepend(Laid(Has(s, '-'), s.width, [(v % 0x100) as char]), Format(rest, args))
  {
    hide Format, SpecText, Prepend, Convert, DirectiveOf, Laid;
    SpecConverted(s, rest, [Integer(v)] + args);
    CharConverts(s, v, rest, args);
  }

  /** What the standard has `%s` print: the string up to the precision, on its side of the field. */
  function TextField(s: Spec, x: string): string {
    Laid(Has(s, '-'), s.width, if s.precision.Some? && s.precision.value < |x| then x[..s.precision.value] else x)
  }

  /** `%s` prints that if and only if a precision, or less than 2^32 characters, bound the length, or what it wraps to
      is no less than the width. */
  lemma FormatString(s: Spec, x: string, rest: string, args: seq<Arg>)
    requires Specification(s) && s.c == 's' && CString(x)
    ensures var standard := Prepend(TextField(s, x), Format(rest, args));
      Format("%" + (SpecText(s) + rest), [Text(x)] + args) == standard <==>
        Format(rest, args).None? || s.precision.Some? || |x| < 0x1_0000_0000 || s.width <= |x| % 0x1_0000_0000
  {
    var all := [Text(x)] + args;
    SpecConverted(s, rest, all);
    assert all[1..] == args;
    StringConforms(s, x, rest, all);
    PrependSame(StringText(x, DirectiveOf(s, rest, all)), TextField(s, x), Format(rest, args));
    hide Format, SpecText, Prepend, IntegerText, StringText, TextField, FlagsOf;
  }

  lemma StringConforms(s: Spec, x: string, rest: string, args: seq<Arg>)
    requires Specification(s)
    ensures StringText(x, DirectiveOf(s, rest, args)) == TextField(s, x) <==>
      s.precision.Some? || |x| < 0x1_0000_0000 || s.width <= |x| % 0x1_0000_0000
  {
    var d := DirectiveOf(s, rest, args);
    var t := Shown(x, d);
    FieldSize(t, d.f, s.width);
    LaidLength(Has(s, '-'), s.width, t);
    if s.precision.None? {
      assert t == x;
    } else {
      assert t == if s.precision.value < |x| then x[..s.precision.value] else x;
    }
  }

  // ---------- Arguments for width and precision ----------

  lemma LeftFlag(fs: string, n: int)
    ensures WithFlags(NO_FLAGS, if n < 0 then fs + "-" else fs) ==
      WithFlags(NO_FLAGS, fs).(left := '-' in fs || n < 0)
  {
  }

  /** What is parsed depends on flags and width only through what they come to. */
  lemma ParsedAlike(t: string, args: seq<Arg>, u: string, brgs: seq<Arg>)
    requires var f, g := ParseFlags(t, NO_FLAGS), ParseFlags(u, NO_FLAGS);
      ParseWidth(Directive(f.0, 0, 0, f.1, args)) == ParseWidth(Directive(g.0, 0, 0, g.1, brgs))
    ensures Format("%" + t, args) == Format("%" + u, brgs)
  {
    hide ParseFlags, ParseWidth, ParsePrecision, ParseLength, Convert;
    assert ("%" + t)[1..] == t && ("%" + u)[1..] == u;
    assert ParseDirective(t, args) == ParseDirective(u, brgs);
    hide ParseDirective;
  }

  lemma StarParsed(f: Flags, n: int, tail: string, args: seq<Arg>)
    requires -0x8000_0000 <= n < 0x8000_0000
    ensures ParseWidth(Directive(f, 0, 0, "*" + tail, [Integer(n)] + args)) ==
      Some(Directive(f.(left := f.left || n < 0), if n < 0 then -n else n, 0, tail, args))
  {
    assert ("*" + tail)[1..] == tail && ([Integer(n)] + args)[1..] == args;
  }

  lemma WidthHead(w: nat, tail: string)
    requires !IsFlag(Head(tail))
    ensures !IsFlag(Head(WidthText(w) + tail))
  {
    hide Written;
    WrittenHead(w);
    assert w == 0 ==> WidthText(w) + tail == tail;
  }

  /** A width given as an argument does what it does written out, and a negative one what it does with `-`. */
  lemma StarWidth(fs: string, n: int, tail: string, args: seq<Arg>)
    requires Flagged(fs) && -0x8000_0000 <= n < 0x8000_0000
    requires !IsFlag(Head(tail)) && !('0' <= Head(tail) <= '9') && Head(tail) != '*'
    ensures Format("%" + (fs + ("*" + tail)), [Integer(n)] + args) ==
      Format("%" + ((if n < 0 then fs + "-" else fs) + (WidthText(if n < 0 then -n else n) + tail)), args)
  {
    hide Format, ParseFlags, ParseWidth, WidthText, WithFlags;
    var gs, w: nat := if n < 0 then fs + "-" else fs, if n < 0 then -n else n;
    FlagsParsed(fs, "*" + tail, NO_FLAGS);
    StarParsed(WithFlags(NO_FLAGS, fs), n, tail, args);
    WidthHead(w, tail);
    FlagsParsed(gs, WidthText(w) + tail, NO_FLAGS);
    LeftFlag(fs, n);
    WidthParsed(w, Directive(WithFlags(NO_FLAGS, gs), 0, 0, WidthText(w) + tail, args), tail);
    ParsedAlike(fs + ("*" + tail), [Integer(n)] + args, gs + (WidthText(w) + tail), args);
  }

  /** A precision given as an argument does what it does written out, and a negative one what 0 does. */
  lemma StarPrecise(fs: string, w: nat, n: int, tail: string, args: seq<Arg>)
    requires Flagged(fs) && w < 0x1_0000_0000 && -0x8000_0000 <= n < 0x8000_0000 && !('0' <= Head(tail) <= '9')
    ensures Format("%" + (fs + (WidthText(w) + (".*" + tail))), [Integer(n)] + args) ==
      Format("%" + (fs + (WidthText(w) + ("." + (Written(if n < 0 then 0 else n, 10, false) + tail)))), args)
  {
    hide Format, ParseFlags, ParseWidth, WidthText, WithFlags, Written, Flagged, ParsePrecision;
    var p: nat, all := if n < 0 then 0 else n, [Integer(n)] + args;
    var t, u := ".*" + tail, "." + (Written(p, 10, false) + tail);
    WidthHead(w, t);
    WidthHead(w, u);
    FlagsParsed(fs, WidthText(w) + t, NO_FLAGS);
    FlagsParsed(fs, WidthText(w) + u, NO_FLAGS);
    var f := WithFlags(NO_FLAGS, fs);
    WidthParsed(w, Directive(f, 0, 0, WidthText(w) + t, all), t);
    WidthParsed(w, Directive(f, 0, 0, WidthText(w) + u, args), u);
    var d, e := Directive(f, w, 0, t, all), Directive(f, w, 0, u, args);
    StarFound(d, n, tail, args);
    assert u == PrecisionText(Some(p)) + tail;
    PrecisionParsed(Some(p), e, tail);
    PreciseAlike(fs + (WidthText(w) + t), all, fs + (WidthText(w) + u), args);
  }

  lemma StarFound(d: Directive, n: int, tail: string, args: seq<Arg>)
    requires d.format == ".*" + tail && d.args == [Integer(n)] + args && -0x8000_0000 <= n < 0x8000_0000
    ensures ParsePrecision(d) == Some(d.(f := d.f.(precision := true), precision := if n < 0 then 0 else n,
                                         format := tail, args := args))
  {
    assert d.format[2..] == tail && d.args[1..] == args;
    StarPrecision(d);
    hide ParsePrecision;
  }

  /** The same for what comes to the same behind the precision. */
  lemma PreciseAlike(t: string, args: seq<Arg>, u: string, brgs: seq<Arg>)
    requires var f, g := ParseFlags(t, NO_FLAGS), ParseFlags(u, NO_FLAGS);
      var d, e := ParseWidth(Directive(f.0, 0, 0, f.1, args)), ParseWidth(Directive(g.0, 0, 0, g.1, brgs));
      d.Some? && e.Some? && ParsePrecision(d.value) == ParsePrecision(e.value)
    ensures Format("%" + t, args) == Format("%" + u, brgs)
  {
    hide ParseFlags, ParseWidth, ParsePrecision, ParseLength, Convert;
    assert ("%" + t)[1..] == t && ("%" + u)[1..] == u;
    assert ParseDirective(t, args) == ParseDirective(u, brgs);
    hide ParseDirective;
  }
}
