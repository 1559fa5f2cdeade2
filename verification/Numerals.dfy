/**
 Numerals as the bundled printf writes and reads them: least significant digit first in its scratch
 buffer, most significant first in its output.
 */
module Numerals {
  import opened Options

  /** Size of the scratch buffer a number is converted in. */
  const PRINTF_NTOA_BUFFER_SIZE := 32

  function Min(a: int, b: int): int {
    if a < b then a else b
  }

  function Max(a: int, b: int): int {
    if a < b then b else a
  }

  /** `n` times the character `c`; none when `n` is negative. */
  function Fill(c: char, n: int): (s: string)
    ensures |s| == Max(n, 0)
  {
    seq(Max(n, 0), _ => c)
  }

  function Reverse(s: string): (r: string)
    ensures |r| == |s|
  {
    if s == "" then "" else Reverse(s[1..]) + [s[0]]
  }

  function Power(base: nat, n: nat): nat
    decreases n
  {
    if n == 0 then 1 else base * Power(base, n - 1)
  }

  predicate IsDigit(c: char) {
    '0' <= c <= '9'
  }

  /** The value of a digit in a base of at most sixteen. */
  function DigitValue(c: char): Option<nat> {
    if IsDigit(c) then Some(c as int - '0' as int)
    else if 'a' <= c <= 'f' then Some(c as int - 'a' as int + 10)
    else if 'A' <= c <= 'F' then Some(c as int - 'A' as int + 10)
    else None
  }

  function DigitChar(d: nat, upper: bool): char
    requires d < 16
  {
    if d < 10 then ('0' as int + d) as char else ((if upper then 'A' else 'a') as int + d - 10) as char
  }

  /** Every character is a digit. */
  predicate Numeral(s: string) {
    forall c <- s :: DigitValue(c).Some?
  }

  /** The value of a numeral whose least significant digit comes first. */
  function Value(s: string, base: nat): nat
    requires Numeral(s)
  {
    if s == "" then 0 else DigitValue(s[0]).value + base * Value(s[1..], base)
  }

  /** The conversion loop: the digits of `v`, least significant first, at least one and at most `room`. */
  function Digits(v: nat, base: nat, upper: bool, room: nat): (s: string)
    requires 2 <= base <= 16 && room > 0
    ensures 1 <= |s| <= room && Numeral(s)
    decreases room
  {
    Divide(v, base);
    DigitOfChar(v % base, upper);
    var rest := if v / base == 0 || room == 1 then "" else Digits(v / base, base, upper, room - 1);
    NumeralCons(DigitChar(v % base, upper), rest);
    [DigitChar(v % base, upper)] + rest
  }

  lemma NumeralCons(c: char, s: string)
    requires DigitValue(c).Some? && Numeral(s)
    ensures Numeral([c] + s)
  {
  }

  lemma DigitOfChar(d: nat, upper: bool)
    requires d < 16
    ensures DigitValue(DigitChar(d, upper)) == Some(d)
  {
  }

  /** What is left of `v` after dividing it `n` times. */
  function Rest(v: nat, base: nat, n: nat): nat
    requires base > 0
    decreases n
  {
    if n == 0 then v else
    Divide(v, base);
    Rest(v / base, base, n - 1)
  }

  lemma {:induction false} RestOfZero(base: nat, n: nat)
    requires base > 0
    ensures Rest(0, base, n) == 0
    decreases n
  {
    if n > 0 {
      RestOfZero(base, n - 1);
    }
  }

  lemma Divide(v: nat, base: nat)
    requires base > 0
    ensures v == v % base + base * (v / base) && v / base >= 0 && 0 <= v % base < base
  {
  }

  lemma Distribute(a: nat, x: nat, y: nat, z: nat)
    ensures a * (x + y * z) == a * x + (a * y) * z
  {
  }

  lemma {:induction false} DigitsDivide(v: nat, base: nat, upper: bool, room: nat)
    requires 2 <= base <= 16 && room > 0
    ensures v == Value(Digits(v, base, upper, room), base) + Power(base, room) * Rest(v, base, room)
    decreases room
  {
    hide Digits, Value, Rest, Power, Numeral;
    var s := Digits(v, base, upper, room);
    DigitsStep(v, base, upper, room);
    RestStep(v, base, room);
    if v / base == 0 || room == 1 {
      if v / base == 0 {
        RestOfZero(base, room - 1);
      }
    } else {
      var t := Digits(v / base, base, upper, room - 1);
      DigitsDivide(v / base, base, upper, room - 1);
      Distribute(base, Value(t, base), Power(base, room - 1), Rest(v / base, base, room - 1));
    }
  }

  /** One turn of the conversion loop, and what it does to the value. */
  lemma DigitsStep(v: nat, base: nat, upper: bool, room: nat)
    requires 2 <= base <= 16 && room > 0
    ensures v / base >= 0 && v == v % base + base * (v / base)
    ensures Numeral(Digits(v, base, upper, room))
    ensures Value(Digits(v, base, upper, room), base) == v % base +
      if v / base == 0 || room == 1 then 0 else base * Value(Digits(v / base, base, upper, room - 1), base)
  {
    hide Power, Rest;
    DigitOfChar(v % base, upper);
    Divide(v, base);
    var s := Digits(v, base, upper, room);
    if v / base == 0 || room == 1 {
      assert s == [DigitChar(v % base, upper)] && s[1..] == "";
    } else {
      assert s[1..] == Digits(v / base, base, upper, room - 1);
    }
  }

  lemma RestStep(v: nat, base: nat, n: nat)
    requires base > 0 && n > 0
    ensures v / base >= 0 && Rest(v, base, n) == Rest(v / base, base, n - 1)
    ensures Power(base, n) == base * Power(base, n - 1)
    ensures n == 1 ==> Power(base, n) == base && Rest(v, base, n) == v / base
  {
    Divide(v, base);
    assert Power(base, 0) == 1;
  }

  /** Every digit is below the base. */
  predicate InBase(s: string, base: nat) {
    forall c <- s :: DigitValue(c).Some? && DigitValue(c).value < base
  }

  lemma InBaseParts(s: string, t: string, base: nat)
    requires InBase(s, base) && InBase(t, base)
    ensures InBase(s + t, base)
  {
  }

  lemma InBaseOne(c: char, base: nat)
    requires DigitValue(c).Some? && DigitValue(c).value < base
    ensures InBase([c], base)
  {
  }

  lemma {:induction false} DigitsInBase(v: nat, base: nat, upper: bool, room: nat)
    requires 2 <= base <= 16 && room > 0
    ensures InBase(Digits(v, base, upper, room), base)
    decreases room
  {
    DigitOfChar(v % base, upper);
    Divide(v, base);
    hide DigitValue, DigitChar, InBase;
    InBaseOne(DigitChar(v % base, upper), base);
    if v / base != 0 && room > 1 {
      DigitsInBase(v / base, base, upper, room - 1);
      InBaseParts([DigitChar(v % base, upper)], Digits(v / base, base, upper, room - 1), base);
    } else {
      assert [DigitChar(v % base, upper)] + "" == [DigitChar(v % base, upper)];
    }
  }

  lemma Below(d: nat, base: nat, v: nat, p: nat)
    requires d < base && v < p
    ensures d + base * v < base * p
  {
    assert base * v <= base * (p - 1) == base * p - base;
  }

  lemma {:induction false} ValueBelow(s: string, base: nat, n: nat)
    requires InBase(s, base) && |s| <= n && base > 0
    ensures Value(s, base) < Power(base, n)
    decreases n
  {
    if s != "" {
      ValueBelow(s[1..], base, n - 1);
      Below(DigitValue(s[0]).value, base, Value(s[1..], base), Power(base, n - 1));
    } else if n > 0 {
      ValueBelow(s, base, n - 1);
      Below(0, base, 0, Power(base, n - 1));
    }
  }

  /** Multiples of `p` that differ by less than `p` are equal. */
  lemma SameMultiple(p: nat, a: int, b: int)
    requires p * a - p * b < p && p * b - p * a < p
    ensures a == b
  {
    if a < b {
      assert p * (b - a) == p * b - p * a;
      Multiples(p, b - a);
    } else if b < a {
      assert p * (a - b) == p * a - p * b;
      Multiples(p, a - b);
    }
  }

  lemma Multiples(p: nat, k: int)
    requires k >= 1
    ensures p * k >= p
  {
    assert p * k == p + p * (k - 1);
  }

  lemma Remainder(r: nat, p: nat, q: nat)
    requires r < p
    ensures (r + p * q) % p == r
  {
    var x := r + p * q;
    Divide(x, p);
    SameMultiple(p, x / p, q);
  }

  /** The conversion keeps the value modulo base^room. */
  lemma DigitsValue(v: nat, base: nat, upper: bool, room: nat)
    requires 2 <= base <= 16 && room > 0
    ensures Power(base, room) > 0
    ensures Value(Digits(v, base, upper, room), base) == v % Power(base, room)
  {
    hide Digits, Power, Value, Rest;
    var s := Digits(v, base, upper, room);
    DigitsDivide(v, base, upper, room);
    DigitsInBase(v, base, upper, room);
    ValueBelow(s, base, room);
    Remainder(Value(s, base), Power(base, room), Rest(v, base, room));
  }

  // ---------- Reading ----------

  /** Reads digits of a base, most significant first, up to the first other character. */
  function ReadDigits(s: string, base: nat, acc: nat): nat {
    if s == "" || DigitValue(s[0]).None? || DigitValue(s[0]).value >= base then acc
    else ReadDigits(s[1..], base, Append(acc, base, s[0]))
  }

  /** The number with one more digit. */
  function Append(acc: nat, base: nat, c: char): nat
    requires DigitValue(c).Some?
  {
    acc * base + DigitValue(c).value
  }

  function SkipSpaces(s: string): string {
    if s != "" && s[0] == ' ' then SkipSpaces(s[1..]) else s
  }

  datatype Number = Number(negative: bool, magnitude: nat)

  /** Reads a number back: spaces, a sign, digits. */
  function Read(s: string, base: nat): Number {
    var t := SkipSpaces(s);
    if t != "" && t[0] == '-' then Number(true, ReadDigits(t[1..], base, 0))
    else if t != "" && t[0] == '+' then Number(false, ReadDigits(t[1..], base, 0))
    else Number(false, ReadDigits(t, base, 0))
  }

  /** A string that no digit starts. */
  predicate NoDigit(s: string) {
    s == "" || DigitValue(s[0]).None?
  }

  lemma NumeralParts(s: string, t: string)
    requires Numeral(s) && Numeral(t)
    ensures Numeral(s + t)
  {
  }

  lemma {:induction false} ReverseSnoc(s: string, c: char)
    ensures Reverse(s + [c]) == [c] + Reverse(s)
  {
    if s == "" {
      assert s + [c] == [c];
      assert Reverse([c]) == Reverse([c][1..]) + [c];
    } else {
      assert (s + [c])[1..] == s[1..] + [c];
      ReverseSnoc(s[1..], c);
    }
  }

  lemma {:induction false} ValueSnoc(s: string, c: char, base: nat)
    requires Numeral(s) && DigitValue(c).Some?
    ensures Numeral(s + [c])
    ensures Value(s + [c], base) == Value(s, base) + DigitValue(c).value * Power(base, |s|)
  {
    NumeralParts(s, [c]);
    if s == "" {
      assert s + [c] == [c];
    } else {
      assert (s + [c])[1..] == s[1..] + [c];
      ValueSnoc(s[1..], c, base);
      Distribute(base, Value(s[1..], base), DigitValue(c).value, Power(base, |s| - 1));
      Swap(base, DigitValue(c).value, Power(base, |s| - 1));
    }
  }

  lemma Swap(a: nat, d: nat, p: nat)
    ensures (a * d) * p == d * (a * p)
  {
  }

  lemma Combine(acc: nat, base: nat, d: nat, p: nat, low: nat, all: nat)
    requires all == low + d * p
    ensures (acc * base + d) * p + low == acc * (base * p) + all
  {
  }

  lemma ReadFirst(c: char, s: string, base: nat, acc: nat)
    requires DigitValue(c).Some? && DigitValue(c).value < base
    ensures ReadDigits([c] + s, base, acc) == ReadDigits(s, base, Append(acc, base, c))
  {
    assert ([c] + s)[1..] == s;
  }

  /** Reading the digits the other way round gives the value. */
  lemma {:induction false} ReadReversed(s: string, tail: string, base: nat, acc: nat)
    requires InBase(s, base) && NoDigit(tail)
    ensures Numeral(s) && ReadDigits(Reverse(s) + tail, base, acc) == acc * Power(base, |s|) + Value(s, base)
    decreases |s|
  {
    if s == "" {
      ReadNone(tail, base, acc);
    } else {
      hide ReadDigits, Value, Reverse, DigitValue, Numeral, InBase, Power, Append;
      var t, c := s[..|s| - 1], s[|s| - 1];
      assert s == t + [c];
      LastInBase(t, c, base);
      var next := Append(acc, base, c);
      ReadStep(t, c, tail, base, acc);
      ReadReversed(t, tail, base, next);
      ReadCombine(t, c, base, acc, next);
    }
  }

  lemma LastInBase(t: string, c: char, base: nat)
    requires InBase(t + [c], base)
    ensures InBase(t, base) && DigitValue(c).Some? && DigitValue(c).value < base && Numeral(t) && Numeral(t + [c])
  {
    var s := t + [c];
    assert s[|t|] == c && c in s;
    forall x <- t ensures x in s {
      var k :| 0 <= k < |t| && t[k] == x;
      assert s[k] == x;
    }
  }

  lemma ReadStep(t: string, c: char, tail: string, base: nat, acc: nat)
    requires DigitValue(c).Some? && DigitValue(c).value < base
    ensures ReadDigits(Reverse(t + [c]) + tail, base, acc) ==
      ReadDigits(Reverse(t) + tail, base, Append(acc, base, c))
  {
    hide ReadDigits, DigitValue, Reverse;
    ReverseSnoc(t, c);
    ReadFirst(c, Reverse(t) + tail, base, acc);
    assert ([c] + Reverse(t)) + tail == [c] + (Reverse(t) + tail);
  }

  lemma ReadCombine(t: string, c: char, base: nat, acc: nat, next: nat)
    requires Numeral(t) && DigitValue(c).Some? && next == Append(acc, base, c)
    ensures Numeral(t + [c])
    ensures next * Power(base, |t|) + Value(t, base) == acc * Power(base, |t + [c]|) + Value(t + [c], base)
  {
    hide Value, DigitValue;
    ValueSnoc(t, c, base);
    Combine(acc, base, DigitValue(c).value, Power(base, |t|), Value(t, base), Value(t + [c], base));
  }

  lemma ReadNone(tail: string, base: nat, acc: nat)
    requires NoDigit(tail)
    ensures Reverse("") + tail == tail && ReadDigits(tail, base, acc) == acc
    ensures Value("", base) == 0 && Power(base, 0) == 1
  {
  }

  /** Leading zeros do not count. */
  lemma {:induction false} ValueZeros(s: string, n: nat, base: nat)
    requires Numeral(s)
    ensures Numeral(s + Fill('0', n)) && Value(s + Fill('0', n), base) == Value(s, base)
  {
    if n == 0 {
      assert s + Fill('0', n) == s;
    } else {
      ValueZeros(s, n - 1, base);
      assert s + Fill('0', n) == (s + Fill('0', n - 1)) + ['0'];
      ValueSnoc(s + Fill('0', n - 1), '0', base);
    }
  }

  lemma {:induction false} SkipFill(n: nat, s: string)
    ensures SkipSpaces(Fill(' ', n) + s) == SkipSpaces(s)
  {
    if n == 0 {
      assert Fill(' ', n) + s == s;
    } else {
      SkipFill(n - 1, s);
      assert (Fill(' ', n) + s)[1..] == Fill(' ', n - 1) + s;
    }
  }
}
