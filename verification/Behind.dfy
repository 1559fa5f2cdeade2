/**
 The byte in memory behind a chain.  The driver reads it only for a last write DAT without its payload: whatever
 it is, the lists before the last one are the same, and so is everything about the chain but that payload.
 */
module Behind {
  import opened Tokens
  import opened Registers
  import opened Loader

  /** Two lists as far along. */
  predicate SameFill(x: seq<Op>, y: seq<Op>) {
    |x| == |y| && |Payloads(x)| == |Payloads(y)|
  }

  lemma SameFillSnoc(x: seq<Op>, y: seq<Op>, p: Op, q: Op)
    requires SameFill(x, y) && p.Write? == q.Write?
    ensures SameFill(x + [p], y + [q])
  {
    PayloadsSnoc(x, p);
    PayloadsSnoc(y, q);
  }

  /** Which operation a token is does not depend on the byte behind it, only its payload does. */
  lemma DecodeKind(tok: byte, x: byte, y: byte, d: bool)
    ensures var p, q := Decode(tok, x, d), Decode(tok, y, d);
      && p.Some? == q.Some?
      && (p.Some? ==>
          && p.value.Write? == q.value.Write? && p.value.End? == q.value.End? && (!p.value.Write? ==> p == q)
          && p.value.Size() == q.value.Size() && p.value.Reading(d) == q.value.Reading(d))
  {
  }

  lemma CellsTwice(data: seq<byte>, x: byte, y: byte, i: nat)
    requires i < |data|
    ensures (data + [x])[i] == (data + [y])[i] == data[i]
  {
  }

  /** Whatever byte is behind a chain, its loads succeed alike and stop at the same places. */
  lemma {:induction false} LoadAlike(data: seq<byte>, x: byte, y: byte, i: nat, d: bool, acc: seq<Op>, bcc: seq<Op>)
    requires Fits(acc) && Fits(bcc) && SameFill(acc, bcc)
    ensures var r, s := LoadFrom(data + [x], i, d, acc), LoadFrom(data + [y], i, d, bcc);
      r.ok == s.ok && r.next == s.next && r.reading == s.reading
    decreases MAX_TOKENS - |acc|
  {
    hide LoadFrom, Payloads, Decode, Op.Reading, Op.Size, SameFill;
    var c, e := data + [x], data + [y];
    assert |acc| == |bcc| && |Payloads(acc)| == |Payloads(bcc)| by { SameFillNow(acc, bcc); }
    LoadStep(c, i, d, acc);
    LoadStep(e, i, d, bcc);
    if |acc| < MAX_TOKENS && |Payloads(acc)| < MAX_DATA {
      if i >= |data| {
        SameFillSnoc(acc, bcc, End, End);
        LoadAlike(data, x, y, i + 1, d, acc + [End], bcc + [End]);
      } else {
        CellsTwice(data, x, y, i);
        DecodeKind(c[i], c[i + 1], e[i + 1], d);
        var p, q := Decode(c[i], c[i + 1], d), Decode(e[i], e[i + 1], d);
        if p.Some? {
          SameFillSnoc(acc, bcc, p.value, q.value);
          LoadAlike(data, x, y, i + p.value.Size(), p.value.Reading(d), acc + [p.value], bcc + [q.value]);
        }
      }
    }
  }

  lemma SameFillNow(x: seq<Op>, y: seq<Op>)
    requires SameFill(x, y)
    ensures |x| == |y| && |Payloads(x)| == |Payloads(y)|
  {
  }

  /** What is known of a chain goes by its tokens one by one. */
  lemma ParseOne(c: Cells, i: nat, d: bool)
    ensures i >= Len(c) ==> Known(c, i, d) && ParseEnd(c, i, d) == i && !HasEnd(Parse(c, i, d))
    ensures i < Len(c) ==> var op := Decode(c[i], c[i + 1], d);
      if op.None? then !Known(c, i, d) && ParseEnd(c, i, d) == i && !HasEnd(Parse(c, i, d))
      else
        var j, f := i + op.value.Size(), op.value.Reading(d);
        && Known(c, i, d) == Known(c, j, f) && ParseEnd(c, i, d) == ParseEnd(c, j, f)
        && HasEnd(Parse(c, i, d)) == (op.value.End? || HasEnd(Parse(c, j, f)))
  {
    hide Decode, Op.Reading, Op.Size;
  }

  /** Whatever byte is behind a chain, the same tokens are known, and the parse ends at the same place. */
  lemma {:induction false} KnownAlike(data: seq<byte>, x: byte, y: byte, i: nat, d: bool)
    ensures Known(data + [x], i, d) == Known(data + [y], i, d)
    ensures ParseEnd(data + [x], i, d) == ParseEnd(data + [y], i, d)
    ensures HasEnd(Parse(data + [x], i, d)) == HasEnd(Parse(data + [y], i, d))
    decreases |data| + 1 - i
  {
    hide Decode, Op.Reading, Known, ParseEnd, Parse, HasEnd;
    var c, e := data + [x], data + [y];
    ParseOne(c, i, d);
    ParseOne(e, i, d);
    if i < |data| {
      CellsTwice(data, x, y, i);
      DecodeKind(c[i], c[i + 1], e[i + 1], d);
      var op := Decode(c[i], c[i + 1], d);
      if op.Some? {
        KnownAlike(data, x, y, i + op.value.Size(), op.value.Reading(d));
      }
    }
  }

  lemma {:induction false} QuietAlike(data: seq<byte>, x: byte, y: byte, i: nat, d: bool, n: nat, m: nat, ended: bool)
    requires Known(data + [x], i, d) && Known(data + [y], i, d)
    ensures QuietBytes(data + [x], i, d, n, m, ended) == QuietBytes(data + [y], i, d, n, m, ended)
    decreases |data| + 1 - i
  {
    hide Decode, Op.Reading;
    var c, e := data + [x], data + [y];
    if i < |data| {
      CellsTwice(data, x, y, i);
      DecodeKind(c[i], c[i + 1], e[i + 1], d);
      var op := Decode(c[i], c[i + 1], d).value;
      var full := n == MAX_TOKENS || m == MAX_DATA;
      QuietAlike(data, x, y, i + op.Size(), op.Reading(d), (if full then 0 else n) + 1,
        (if full then 0 else m) + (if op.Write? then 1 else 0), ended || c[i] == TK_END);
    }
  }

  lemma {:induction false} SettlesAlike(data: seq<byte>, x: byte, y: byte, i: nat)
    ensures Settles(data + [x], i) == Settles(data + [y], i)
    decreases |data| + 1 - i
  {
    if i < |data| {
      CellsTwice(data, x, y, i);
      SettlesAlike(data, x, y, i + 1);
    }
  }

  lemma {:induction false} AddressAlike(data: seq<byte>, x: byte, y: byte, i: nat)
    ensures AddressFirst(data + [x], i) == AddressFirst(data + [y], i)
    decreases |data| + 1 - i
  {
    if i < |data| {
      CellsTwice(data, x, y, i);
      AddressAlike(data, x, y, i + 1);
    }
  }

  lemma ParseCons(c: Cells, i: nat, d: bool)
    requires Known(c, i, d)
    ensures Parse(c, i, d) == if i >= Len(c) then [] else
      var op := Decode(c[i], c[i + 1], d).value; [op] + Parse(c, i + op.Size(), op.Reading(d))
  {
    hide Decode, Op.Reading, Op.Size;
  }

  /** When no payload is missing, the byte behind a chain has no influence on its parse. */
  lemma {:induction false} ParseAlike(data: seq<byte>, x: byte, y: byte, i: nat, d: bool)
    requires Known(data + [x], i, d) && ParseEnd(data + [x], i, d) == |data|
    ensures Parse(data + [y], i, d) == Parse(data + [x], i, d)
    decreases |data| + 1 - i
  {
    hide Decode, Op.Reading, Known, ParseEnd, Parse, HasEnd;
    var c, e := data + [x], data + [y];
    KnownAlike(data, x, y, i, d);
    ParseOne(c, i, d);
    ParseCons(c, i, d);
    ParseCons(e, i, d);
    if i < |data| {
      CellsTwice(data, x, y, i);
      DecodeKind(c[i], c[i + 1], e[i + 1], d);
      var op := Decode(c[i], c[i + 1], d).value;
      if i + 1 < |data| {
        CellsTwice(data, x, y, i + 1);
      } else {
        ParseOne(c, i + op.Size(), op.Reading(d));
      }
      ParseAlike(data, x, y, i + op.Size(), op.Reading(d));
    }
  }

  /** What is well-formed stays so whatever byte is behind it. */
  lemma WellBehind(data: seq<byte>, x: byte, y: byte)
    requires WellFormed(data + [x])
    ensures WellFormed(data + [y])
  {
    hide Known, ParseEnd, Parse, HasEnd, AddressFirst, EndsOnlyAtTail;
    KnownAlike(data, x, y, 0, false);
    AddressAlike(data, x, y, 0);
    ParseAlike(data, x, y, 0, false);
  }

  /** A load that does not finish the chain does not depend on the byte behind it. */
  lemma {:induction false} LoadBefore(data: seq<byte>, x: byte, y: byte, i: nat, d: bool, acc: seq<Op>)
    requires Fits(acc) && LoadFrom(data + [x], i, d, acc).next < |data|
    ensures LoadFrom(data + [y], i, d, acc) == LoadFrom(data + [x], i, d, acc)
    decreases MAX_TOKENS - |acc|
  {
    hide LoadFrom, Payloads, Decode, Op.Reading;
    var c, e := data + [x], data + [y];
    LoadStep(c, i, d, acc);
    LoadStep(e, i, d, acc);
    if |acc| < MAX_TOKENS && |Payloads(acc)| < MAX_DATA && i < |data| {
      CellsTwice(data, x, y, i);
      DecodeKind(c[i], c[i + 1], e[i + 1], d);
      var op := Decode(c[i], c[i + 1], d);
      if op.Some? {
        if i + 1 < |data| {
          CellsTwice(data, x, y, i + 1);
        }
        LoadBefore(data, x, y, i + op.value.Size(), op.value.Reading(d), acc + [op.value]);
      }
    }
  }

  lemma SameStart<T>(h: T, x: seq<T>, y: seq<T>, k: nat)
    requires k <= |x| && k <= |y| && x[..k] == y[..k]
    ensures ([h] + x)[..k + 1] == ([h] + y)[..k + 1]
    ensures k < |x| ==> ([h] + x)[k + 1] == x[k]
  {
    assert ([h] + x)[..k + 1] == [h] + x[..k] && ([h] + y)[..k + 1] == [h] + y[..k];
  }

  /** The lists up to one that does not finish the chain do not depend on the byte behind it, and the next one
      is loaded from where that one stops. */
  lemma {:induction false} ListsBefore(data: seq<byte>, x: byte, y: byte, i: nat, d: bool, k: nat)
    requires Known(data + [x], i, d) && k < |Lists(data + [x], i, d)| && Lists(data + [x], i, d)[k].next < |data|
    ensures var s, t := Lists(data + [x], i, d), Lists(data + [y], i, d);
      && k + 1 < |t| && t[..k + 1] == s[..k + 1]
      && t[k + 1] == Load(data + [y], s[k].next, s[k].reading)
    decreases k
  {
    hide LoadFrom, Load, Known, Lists;
    var c, e := data + [x], data + [y];
    var ch := Load(c, i, d);
    ListsCons(c, i, d);
    KnownAlike(data, x, y, i, d);
    ListsCons(e, i, d);
    var rest := if ch.next >= |data| then [] else Lists(c, ch.next, ch.reading);
    assert Lists(c, i, d)[0] == ch && (k > 0 ==> Lists(c, i, d)[k] == rest[k - 1]);
    LoadTwice(data, x, y, i, d);
    var tail := Lists(e, ch.next, ch.reading);
    if k > 0 {
      ListsBefore(data, x, y, ch.next, ch.reading, k - 1);
    }
    SameStart(ch, tail, rest, k);
  }

  lemma LoadTwice(data: seq<byte>, x: byte, y: byte, i: nat, d: bool)
    ensures Load(data + [x], i, d).next < |data| ==> Load(data + [y], i, d) == Load(data + [x], i, d)
  {
    hide LoadFrom;
    if Load(data + [x], i, d).next < |data| {
      LoadBefore(data, x, y, i, d, []);
    }
  }
}
