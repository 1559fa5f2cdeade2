/**
 The bundled printf as it runs: characters go to a buffer one by one, numbers are built backwards in a
 scratch array, and pointers move along format and strings.  Each method is proved to output what the
 functions of PrintfIntegers and PrintfFormat say.
 */
module PrintfOutput {
  import opened Options
  import opened Numerals
  import opened PrintfIntegers
  import opened PrintfFormat

  /** The buffer after `text` has been output from its start on, of which it takes `maxlen` characters. */
  function Written(before: seq<char>, text: string, maxlen: nat): (r: seq<char>)
    requires maxlen <= |before|
    ensures |r| == |before|
  {
    var k := Min(|text|, maxlen);
    text[..k] + before[k..]
  }

  /** `text` has been output to the buffer, if there is one. */
  ghost predicate Emitted(buffer: array?<char>, before: seq<char>, text: string, maxlen: nat, idx: nat)
    reads buffer
  {
    idx == |text| && (buffer != null ==> maxlen <= |before| && buffer[..] == Written(before, text, maxlen))
  }

  /** `_out_buffer`; without a buffer, `_out_null`. */
  method Out(character: char, buffer: array?<char>, idx: nat, maxlen: nat, ghost before: seq<char>, ghost text: string)
    returns (idx': nat)
    requires Emitted(buffer, before, text, maxlen, idx)
    modifies buffer
    ensures Emitted(buffer, before, text + [character], maxlen, idx')
  {
    if buffer != null && idx < maxlen {
      buffer[idx] := character;
    }
    idx' := idx + 1;
    if buffer != null {
      assert buffer[..] == Written(before, text + [character], maxlen);
    }
  }

  /** Outputs spaces while `l` is below `width`. */
  method OutSpaces(l: nat, width: nat, buffer: array?<char>, idx: nat, maxlen: nat,
      ghost before: seq<char>, ghost text: string)
    returns (idx': nat)
    requires Emitted(buffer, before, text, maxlen, idx)
    modifies buffer
    ensures Emitted(buffer, before, text + Fill(' ', width - l), maxlen, idx')
  {
    hide Emitted;
    idx' := idx;
    var i := l;
    assert text + Fill(' ', 0) == text;
    while i < width
      invariant l <= i && (i <= width || i == l)
      invariant Emitted(buffer, before, text + Fill(' ', i - l), maxlen, idx')
    {
      idx' := Out(' ', buffer, idx', maxlen, before, text + Fill(' ', i - l));
      assert text + Fill(' ', i + 1 - l) == (text + Fill(' ', i - l)) + [' '];
      i := i + 1;
    }
    assert Fill(' ', width - l) == Fill(' ', i - l);
  }

  /** `_out_rev`: outputs the scratch buffer backwards, in a field of `width`. */
  method OutRev(buffer: array?<char>, idx: nat, maxlen: nat, buf: array<char>, len: nat, width: nat, f: Flags,
      ghost before: seq<char>, ghost text: string)
    returns (idx': nat)
    requires Emitted(buffer, before, text, maxlen, idx) && len <= buf.Length && buf != buffer
    modifies buffer
    ensures Emitted(buffer, before, text + OutRevText(buf[..len], width, f), maxlen, idx')
  {
    hide Emitted;
    ghost var s := buf[..len];
    ghost var out := text;
    idx' := idx;
    if !f.left && !f.zeroPad {
      idx' := OutSpaces(len, width, buffer, idx', maxlen, before, out);
      out := out + Fill(' ', width - len);
    }
    ghost var front := out;
    var n := len;
    assert out == front + Reverse(s[n..]);
    while n > 0
      invariant n <= len && buf[..len] == s
      invariant out == front + Reverse(s[n..]) && Emitted(buffer, before, out, maxlen, idx')
    {
      n := n - 1;
      idx' := Out(buf[n], buffer, idx', maxlen, before, out);
      assert s[n..][0] == s[n] && s[n..][1..] == s[n + 1..];
      out := out + [buf[n]];
    }
    assert s[0..] == s;
    ghost var back := if f.left then Fill(' ', width - len) else "";
    if f.left {
      idx' := OutSpaces(len, width, buffer, idx', maxlen, before, out);
    }
    assert text + OutRevText(s, width, f) == out + back;
    assert out + "" == out;
  }

  /** Adds zeros to the scratch buffer while it is shorter than `n`. */
  method PadZeros(buf: array<char>, len: nat, n: nat) returns (len': nat)
    requires buf.Length == PRINTF_NTOA_BUFFER_SIZE && len <= buf.Length
    modifies buf
    ensures len <= len' <= buf.Length && buf[..len'] == Padded(old(buf[..len]), n)
  {
    len' := len;
    while len' < n && len' < PRINTF_NTOA_BUFFER_SIZE
      invariant len <= len' <= buf.Length && (len' <= n || len' == len)
      invariant buf[..len'] == old(buf[..len]) + Fill('0', len' - len)
    {
      buf[len'] := '0';
      len' := len' + 1;
    }
    assert Fill('0', len' - len) == Fill('0', Min(n, PRINTF_NTOA_BUFFER_SIZE) - len);
  }

  /** Adds a character to the scratch buffer. */
  method AppendChar(buf: array<char>, len: nat, c: char) returns (len': nat)
    requires len < buf.Length
    modifies buf
    ensures len' == len + 1 && buf[..len'] == old(buf[..len]) + [c]
  {
    buf[len] := c;
    len' := len + 1;
  }

  /** Adds the base's letter and a zero. */
  method AddPrefix(buf: array<char>, len: nat, base: nat, upper: bool) returns (len': nat)
    requires buf.Length == PRINTF_NTOA_BUFFER_SIZE && len <= buf.Length
    modifies buf
    ensures len' <= buf.Length && buf[..len'] == Prefixed(old(buf[..len]), base, upper)
  {
    len' := len;
    if base == 16 && !upper && len' < PRINTF_NTOA_BUFFER_SIZE {
      len' := AppendChar(buf, len', 'x');
    } else if base == 16 && upper && len' < PRINTF_NTOA_BUFFER_SIZE {
      len' := AppendChar(buf, len', 'X');
    } else if base == 2 && len' < PRINTF_NTOA_BUFFER_SIZE {
      len' := AppendChar(buf, len', 'b');
    }
    if len' < PRINTF_NTOA_BUFFER_SIZE {
      len' := AppendChar(buf, len', '0');
    }
  }

  /** The alternative form. */
  method AddHash(buf: array<char>, len: nat, base: nat, prec: nat, width: nat, f: Flags) returns (len': nat)
    requires buf.Length == PRINTF_NTOA_BUFFER_SIZE && len <= buf.Length
    modifies buf
    ensures len' <= buf.Length && buf[..len'] == Hashed(old(buf[..len]), base, prec, width, f)
  {
    hide Prefixed;
    len' := len;
    ghost var s := buf[..len];
    if f.hash {
      if !f.precision && len' != 0 && (len' == prec || len' == width) {
        len' := len' - 1;
        if len' != 0 && base == 16 {
          len' := len' - 1;
        }
      }
      assert buf[..len'] == s[..len'];
      len' := AddPrefix(buf, len', base, f.upper);
    }
  }

  /** The sign, unless the scratch buffer is full. */
  method AddSign(buf: array<char>, len: nat, negative: bool, f: Flags) returns (len': nat)
    requires buf.Length == PRINTF_NTOA_BUFFER_SIZE && len <= buf.Length
    modifies buf
    ensures len' <= buf.Length && buf[..len'] == WithSign(old(buf[..len]), negative, f)
  {
    len' := len;
    if len' < PRINTF_NTOA_BUFFER_SIZE {
      if negative {
        len' := AppendChar(buf, len', '-');
      } else if f.plus {
        len' := AppendChar(buf, len', '+');
      } else if f.space {
        len' := AppendChar(buf, len', ' ');
      }
    }
  }

  /** `_ntoa_format`. */
  method NtoaFormat(buffer: array?<char>, idx: nat, maxlen: nat, buf: array<char>, len: nat, negative: bool, base: nat,
      prec: nat, width: nat, f: Flags, ghost before: seq<char>, ghost text: string)
    returns (idx': nat)
    requires Emitted(buffer, before, text, maxlen, idx)
    requires buf.Length == PRINTF_NTOA_BUFFER_SIZE && len <= buf.Length && buf != buffer
    modifies buf, buffer
    ensures Emitted(buffer, before,
      text + OutRevText(Scratch(old(buf[..len]), negative, base, prec, width, f), WidthLeft(negative, width, f), f),
      maxlen, idx')
  {
    hide Emitted, Padded, Hashed, WithSign, OutRevText;
    var w, n := width, len;
    if !f.left {
      if w != 0 && f.zeroPad && (negative || f.plus || f.space) {
        w := w - 1;
      }
      n := PadZeros(buf, n, prec);
      if f.zeroPad {
        n := PadZeros(buf, n, w);
      }
    }
    n := AddHash(buf, n, base, prec, w, f);
    n := AddSign(buf, n, negative, f);
    EmittedFrame(buffer, before, text, maxlen, idx, idx);
    idx' := OutRev(buffer, idx, maxlen, buf, n, w, f, before, text);
  }

  lemma EmittedFrame(buffer: array?<char>, before: seq<char>, text: string, maxlen: nat, idx: nat, idx': nat)
    requires Emitted(buffer, before, text, maxlen, idx) && idx == idx'
    ensures Emitted(buffer, before, text, maxlen, idx')
  {
  }

  /** `_ntoa_long` and `_ntoa_long_long`. */
  method NtoaLong(buffer: array?<char>, idx: nat, maxlen: nat, value: nat, negative: bool, base: nat,
      prec: nat, width: nat, f: Flags, ghost before: seq<char>, ghost text: string)
    returns (idx': nat)
    requires Emitted(buffer, before, text, maxlen, idx) && 2 <= base <= 16
    modifies buffer
    ensures Emitted(buffer, before, text + NtoaText(value, negative, base, prec, width, f), maxlen, idx')
  {
    hide Emitted, Scratch, OutRevText, WidthLeft;
    var buf := new char[PRINTF_NTOA_BUFFER_SIZE];
    var g := f;
    if value == 0 {
      g := g.(hash := false);
    }
    var len := ConvertDigits(buf, value, base, g);
    idx' := NtoaFormat(buffer, idx, maxlen, buf, len, negative, base, prec, width, g, before, text);
  }

  /** The conversion loop of `_ntoa_long`. */
  method ConvertDigits(buf: array<char>, value: nat, base: nat, f: Flags) returns (len: nat)
    requires buf.Length == PRINTF_NTOA_BUFFER_SIZE && 2 <= base <= 16
    modifies buf
    ensures len <= buf.Length && buf[..len] == NtoaDigits(value, base, f)
  {
    len := 0;
    if !f.precision || value != 0 {
      ghost var whole := Digits(value, base, f.upper, PRINTF_NTOA_BUFFER_SIZE);
      hide Digits;
      var v: nat := value;
      var more := true;
      ghost var rest := whole;
      MoveOver("", "", whole);
      while more
        invariant len <= buf.Length && (more ==> len < buf.Length)
        invariant rest == if more then Digits(v, base, f.upper, PRINTF_NTOA_BUFFER_SIZE - len) else ""
        invariant whole == buf[..len] + rest
        decreases buf.Length - len, more
      {
        ghost var done := buf[..len];
        var c;
        c, v := NextDigit(v, base, f.upper, PRINTF_NTOA_BUFFER_SIZE - len);
        len := AppendChar(buf, len, c);
        more := v != 0 && len < PRINTF_NTOA_BUFFER_SIZE;
        rest := if more then Digits(v, base, f.upper, PRINTF_NTOA_BUFFER_SIZE - len) else "";
        MoveOver(done, [c], rest);
      }
      MoveOver(buf[..len], "", "");
    }
  }

  lemma MoveOver(s: string, t: string, u: string)
    ensures s + (t + u) == (s + t) + u && "" + u == u && s + "" == s
  {
  }

  /** Splits off the last digit. */
  method NextDigit(v: nat, base: nat, upper: bool, ghost room: nat) returns (c: char, rest: nat)
    requires 2 <= base <= 16 && room > 0
    ensures Digits(v, base, upper, room) ==
      [c] + if rest == 0 || room == 1 then "" else Digits(rest, base, upper, room - 1)
  {
    Divide(v, base);
    c := DigitChar(v % base, upper);
    rest := v / base;
  }

  // ---------- Parsing ----------

  /** The flags loop. */
  method EvalFlags(format: string) returns (f: Flags, rest: string)
    ensures (f, rest) == ParseFlags(format, NO_FLAGS)
  {
    f, rest := NO_FLAGS, format;
    var n := true;
    while n
      invariant ParseFlags(rest, f) == ParseFlags(format, NO_FLAGS)
      invariant !n ==> ParseFlags(rest, f) == (f, rest)
      decreases |rest|, n
    {
      var g := if rest == "" then None else SetFlag(rest[0], f);
      if g.Some? {
        f, rest := g.value, rest[1..];
      } else {
        n := false;
      }
    }
  }

  /** `_atoi`, which moves the pointer behind the digits. */
  method AtoiAdvance(str: string) returns (i: nat, rest: string)
    ensures (i, rest) == Atoi(str, 0)
  {
    i, rest := 0, str;
    while IsDigit(Head(rest))
      invariant Atoi(rest, i) == Atoi(str, 0)
      decreases |rest|
    {
      i := (i * 10 + (rest[0] as int - '0' as int)) % UINT_MAX1;
      rest := rest[1..];
    }
  }

  method EvalWidth(d: Directive) returns (r: Directive)
    requires ParseWidth(d).Some?
    ensures r == ParseWidth(d).value
  {
    r := d.(width := 0);
    if IsDigit(Head(d.format)) {
      var w, rest := AtoiAdvance(d.format);
      r := r.(width := w, format := rest);
    } else if Head(d.format) == '*' {
      var w := Signed(d.args[0].v, 32);
      if w < 0 {
        r := r.(f := r.f.(left := true), width := -w);
      } else {
        r := r.(width := w);
      }
      r := r.(format := d.format[1..], args := d.args[1..]);
    }
  }

  method EvalPrecision(d: Directive) returns (r: Directive)
    requires ParsePrecision(d).Some?
    ensures r == ParsePrecision(d).value
  {
    r := d.(precision := 0);
    if Head(d.format) == '.' {
      r := r.(f := r.f.(precision := true), format := d.format[1..]);
      if IsDigit(Head(r.format)) {
        var p, rest := AtoiAdvance(r.format);
        r := r.(precision := p, format := rest);
      } else if Head(r.format) == '*' {
        var prec := Signed(d.args[0].v, 32);
        r := r.(precision := if prec > 0 then prec else 0, format := r.format[1..], args := d.args[1..]);
      }
    }
  }

  /** Everything between `%` and the conversion character. */
  method EvalDirective(format: string, va: seq<Arg>) returns (d: Directive)
    requires ParseDirective(format, va).Some?
    ensures d == ParseDirective(format, va).value
  {
    hide ParseFlags, ParseWidth, ParsePrecision, ParseLength;
    var f, rest := EvalFlags(format);
    d := EvalWidth(Directive(f, 0, 0, rest, va));
    d := EvalPrecision(d);
    d := ParseLength(d);
  }

  /** `_strnlen_s`: the distance between two pointers, cut to an unsigned int. */
  method StrnlenS(str: string, maxsize: nat) returns (n: nat)
    requires CString(str)
    ensures n == Min(|str|, maxsize) % UINT_MAX1
  {
    var s, left := str, maxsize;
    while Head(s) != NUL && left > 0
      invariant |s| <= |str| && s == str[|str| - |s|..] && |str| - |s| + left == maxsize
      decreases left
    {
      s, left := s[1..], left - 1;
    }
    if s != "" {
      assert s[0] in str;
    }
    n := (|str| - |s|) % UINT_MAX1;
  }

  // ---------- Conversions ----------

  /** `%c`. */
  method OutChar(c: char, d: Directive, buffer: array?<char>, idx: nat, maxlen: nat,
      ghost before: seq<char>, ghost text: string)
    returns (idx': nat)
    requires Emitted(buffer, before, text, maxlen, idx)
    modifies buffer
    ensures Emitted(buffer, before, text + InField([c], 1, d.f, d.width), maxlen, idx')
  {
    hide Emitted;
    idx' := idx;
    ghost var pad := Fill(' ', d.width - 1);
    if !d.f.left {
      idx' := OutSpaces(1, d.width, buffer, idx', maxlen, before, text);
      idx' := Out(c, buffer, idx', maxlen, before, text + pad);
      assert (text + pad) + [c] == text + InField([c], 1, d.f, d.width);
    } else {
      idx' := Out(c, buffer, idx', maxlen, before, text);
      idx' := OutSpaces(1, d.width, buffer, idx', maxlen, before, text + [c]);
      assert (text + [c]) + pad == text + InField([c], 1, d.f, d.width);
    }
  }

  /** The characters of `%s`. */
  method OutText(s: string, d: Directive, buffer: array?<char>, idx: nat, maxlen: nat,
      ghost before: seq<char>, ghost text: string)
    returns (idx': nat)
    requires Emitted(buffer, before, text, maxlen, idx) && CString(s)
    modifies buffer
    ensures Emitted(buffer, before, text + Shown(s, d), maxlen, idx')
  {
    hide Emitted;
    idx' := idx;
    var p, precision := s, d.precision;
    ghost var k := 0;
    assert text + s[..0] == text;
    while Head(p) != NUL && (!d.f.precision || precision > 0)
      invariant k <= |s| && p == s[k..] && precision >= 0 && (d.f.precision ==> precision + k == d.precision)
      invariant Emitted(buffer, before, text + s[..k], maxlen, idx')
      decreases |p|
    {
      idx' := Out(p[0], buffer, idx', maxlen, before, text + s[..k]);
      assert text + s[..k + 1] == (text + s[..k]) + [p[0]];
      p := p[1..];
      k := k + 1;
      if d.f.precision {
        precision := precision - 1;
      }
    }
    if p != "" {
      assert s[k] in s;
    }
    assert s[..k] == Shown(s, d);
  }

  /** `%s`. */
  method OutString(s: string, d: Directive, buffer: array?<char>, idx: nat, maxlen: nat,
      ghost before: seq<char>, ghost text: string)
    returns (idx': nat)
    requires Emitted(buffer, before, text, maxlen, idx) && CString(s)
    requires d.precision < UINT_MAX1 && (d.precision != 0 ==> d.f.precision)
    modifies buffer
    ensures Emitted(buffer, before, text + StringText(s, d), maxlen, idx')
  {
    hide Emitted;
    var l := StrnlenS(s, if d.precision != 0 then d.precision else SIZE_MAX);
    if d.f.precision {
      l := if l < d.precision then l else d.precision;
    }
    idx' := idx;
    ghost var shown := Shown(s, d);
    assert l == |shown| % UINT_MAX1;
    ghost var pad := Fill(' ', d.width - l);
    if !d.f.left {
      idx' := OutSpaces(l, d.width, buffer, idx', maxlen, before, text);
      idx' := OutText(s, d, buffer, idx', maxlen, before, text + pad);
      assert (text + pad) + shown == text + StringText(s, d);
    } else {
      idx' := OutText(s, d, buffer, idx', maxlen, before, text);
      idx' := OutSpaces(l, d.width, buffer, idx', maxlen, before, text + shown);
      assert (text + shown) + pad == text + StringText(s, d);
    }
  }

  /** The integer conversions. */
  method OutInteger(c: char, d: Directive, v: int, buffer: array?<char>, idx: nat, maxlen: nat,
      ghost before: seq<char>, ghost text: string)
    returns (idx': nat)
    requires Emitted(buffer, before, text, maxlen, idx) && IsInteger(c)
    modifies buffer
    ensures Emitted(buffer, before, text + IntegerText(c, d, v), maxlen, idx')
  {
    hide Emitted, NtoaText, IntegerArg, IntegerFlags;
    var base, f := BaseOf(c), IntegerFlags(c, d.f);
    var value := IntegerArg(c, d.f, v);
    idx' := NtoaLong(buffer, idx, maxlen, if value > 0 then value else 0 - value, value < 0, base, d.precision,
      d.width, f, before, text);
  }

  /** The conversion character at the head of `d.format`. */
  method EvalSpecifier(d: Directive, buffer: array?<char>, idx: nat, maxlen: nat,
      ghost before: seq<char>, ghost text: string)
    returns (idx': nat, args: seq<Arg>)
    requires Emitted(buffer, before, text, maxlen, idx) && Convert(d).Some?
    requires d.precision < UINT_MAX1 && (d.precision != 0 ==> d.f.precision)
    modifies buffer
    ensures Emitted(buffer, before, text + Convert(d).value.0, maxlen, idx')
    ensures args == Convert(d).value.1
  {
    hide Emitted, IntegerText, InField, StringText;
    var c := d.format[0];
    if IsInteger(c) {
      idx' := OutInteger(c, d, d.args[0].v, buffer, idx, maxlen, before, text);
      args := d.args[1..];
    } else if c == 'c' {
      idx' := OutChar(CharOf(d.args[0].v), d, buffer, idx, maxlen, before, text);
      args := d.args[1..];
    } else if c == 's' {
      idx' := OutString(d.args[0].s, d, buffer, idx, maxlen, before, text);
      args := d.args[1..];
    } else {
      idx' := Out(c, buffer, idx, maxlen, before, text);
      args := d.args;
    }
  }

  /** The loop of `_vsnprintf`, before the terminator is written. */
  method OutFormat(buffer: array?<char>, maxlen: nat, format: string, va: seq<Arg>) returns (idx: nat)
    requires buffer != null ==> maxlen <= buffer.Length
    requires CString(format) && Format(format, va).Some?
    modifies buffer
    ensures Emitted(buffer, if buffer == null then [] else old(buffer[..]), Format(format, va).value, maxlen, idx)
  {
    ghost var before := if buffer == null then [] else buffer[..];
    ghost var done := "";
    var s, args := format, va;
    idx := 0;
    assert Emitted(buffer, before, done, maxlen, idx);
    hide Emitted, ParseDirective, Convert;
    while s != ""
      invariant Format(s, args).Some?
      invariant done + Format(s, args).value == Format(format, va).value
      invariant Emitted(buffer, before, done, maxlen, idx)
      decreases |s|
    {
      if s[0] != '%' {
        idx := Out(s[0], buffer, idx, maxlen, before, done);
        MoveOver(done, [s[0]], Format(s[1..], args).value);
        done, s := done + [s[0]], s[1..];
        continue;
      }
      ghost var d := ParseDirective(s[1..], args).value;
      ghost var t := Convert(d).value;
      var e := EvalDirective(s[1..], args);
      idx, args := EvalSpecifier(e, buffer, idx, maxlen, before, done);
      MoveOver(done, t.0, Format(d.format[1..], args).value);
      done := done + t.0;
      s := e.format[1..];
    }
  }

  // ---------- The result ----------

  /** One more than the largest int. */
  const INT_MAX1 := 0x8000_0000

  /** The buffer after `text` has been printed to it with room for `count` characters: as much of the text
      as fits, a terminator behind it, and what was there before. */
  function Printed(before: seq<char>, text: string, count: nat): (r: seq<char>)
    requires count <= |before|
    ensures |r| == |before|
  {
    if count == 0 then before else
    var k := Min(|text|, count - 1);
    text[..k] + [NUL] + before[k + 1..]
  }

  lemma WrittenTerminated(before: seq<char>, text: string, count: nat, after: seq<char>)
    requires count <= |before|
    requires after == if count == 0 then Written(before, text, count)
                      else Written(before, text, count)[(if |text| < count then |text| else count - 1) := NUL]
    ensures after == Printed(before, text, count)
  {
  }

  /** `_vsnprintf` with `_out_buffer`: the return value depends on format and arguments only, and the buffer
      gets as much of the same text as fits.  Nothing is written at or behind `count`, and nothing at all
      when it is 0. */
  method Vsnprintf(buffer: array?<char>, count: nat, format: string, va: seq<Arg>) returns (ret: int)
    requires count <= SIZE_MAX && (buffer != null ==> count <= buffer.Length)
    requires CString(format) && Format(format, va).Some?
    modifies buffer
    ensures ret == Signed(|Format(format, va).value|, 32)
    ensures -0x8000_0000 <= ret < 0x8000_0000 && (ret - |Format(format, va).value|) % 0x1_0000_0000 == 0
    ensures buffer != null ==> buffer[..] == Printed(old(buffer[..]), Format(format, va).value, count)
  {
    hide Format, Printed;
    ghost var before := if buffer == null then [] else buffer[..];
    ghost var text := Format(format, va).value;
    var idx := OutFormat(buffer, count, format, va);
    var at := if idx < count then idx else (count - 1) % (SIZE_MAX + 1);
    if buffer != null && at < count {
      buffer[at] := NUL;
    }
    if buffer != null {
      WrittenTerminated(before, text, count, buffer[..]);
    }
    ret := Signed(idx, 32);
  }

  /** The C string a buffer holds. */
  function ToNul(s: seq<char>): string {
    if s == [] || s[0] == NUL then "" else [s[0]] + ToNul(s[1..])
  }

  lemma {:induction false} ToNulOf(s: string, t: seq<char>)
    requires NUL !in s
    ensures ToNul(s + [NUL] + t) == s
  {
    if s == "" {
      assert (s + [NUL] + t)[0] == NUL;
    } else {
      assert s[0] in s;
      assert (s + [NUL] + t)[1..] == s[1..] + [NUL] + t;
      ToNulOf(s[1..], t);
    }
  }

  /** The string left in the buffer is the beginning of the full text that leaves room for a terminator: a
      larger buffer only shows more of it. */
  lemma TruncationIndependent(before: seq<char>, text: string, count: nat)
    requires 0 < count <= |before| && NUL !in text
    ensures ToNul(Printed(before, text, count)) == text[..Min(|text|, count - 1)]
    ensures Printed(before, text, count)[count..] == before[count..]
  {
    ToNulOf(text[..Min(|text|, count - 1)], before[Min(|text|, count - 1) + 1..]);
  }

  /** The documented test, that the text is complete exactly when the returned value is not negative and less
      than `count`, is right if and only if the value is returned whole, or wraps to something that still tells:
      not negative where the text fits, and negative or no less than `count` where it does not. */
  lemma CompleteExactly(before: seq<char>, text: string, count: nat)
    requires 0 < count <= |before| && NUL !in text
    ensures (ToNul(Printed(before, text, count)) == text <==> 0 <= Signed(|text|, 32) < count) <==>
      || |text| < INT_MAX1
      || (|text| < count && |text| % UINT_MAX1 < INT_MAX1)
      || (|text| >= count && |text| % UINT_MAX1 >= Min(INT_MAX1, count))
  {
    TruncationIndependent(before, text, count);
    assert text[..|text|] == text;
  }
}
