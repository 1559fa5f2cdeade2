/**
 The request language of the I2C stack.

 A client hands the server a chain of bytes.  Most bytes are one-byte tokens; a DAT token that follows
 a write address swallows the next byte as its payload.  `Meaning` says, directly on the bytes, which
 bus events a chain asks for; `Parse` cuts a chain into operations, the form the driver works on.

 Bus events follow the I2C-bus specification NXP UM10204: START and STOP conditions (section 3.1.4),
 bytes (3.1.5), ACK and NACK (3.1.6), address and R/W bit (3.1.10).
 */
module Tokens {
  import opened Options

  type byte = bv8

  // Tokens of the transport layer.
  const TK_END: byte := 0x0
  const TK_START: byte := 0x1
  const TK_ADDRW: byte := 0x2
  const TK_ADDRR: byte := 0x3
  const TK_DATA_END: byte := 0x5
  const TK_STOP: byte := 0x6
  const TK_DAT: byte := 0x7

  /** What happens on the bus wires. */
  datatype Event =
    | StartCondition
    | Address(addr: byte, read: bool)
    | WriteByte(data: byte)
    | ReadByte
    | Nack
    | StopCondition

  /** The bus events a chain of bytes asks for at target address `a`, `reading` being the transfer
      direction in force.  END marks the rest of the chain as invalid.  The bytes are written as numbers: 0 END,
      1 START, 2 ADDRW, 3 ADDRR, 5 DATA_END, 6 STOP, 7 DAT. */
  function Meaning(chain: seq<byte>, a: byte, reading: bool): seq<Event> {
    if chain == [] || chain[0] == 0 then []
    else if chain[0] == 1 then [StartCondition] + Meaning(chain[1..], a, reading)
    else if chain[0] == 2 then [Address(a, false)] + Meaning(chain[1..], a, false)
    else if chain[0] == 3 then [Address(a, true)] + Meaning(chain[1..], a, true)
    else if chain[0] == 5 then [Nack] + Meaning(chain[1..], a, reading)
    else if chain[0] == 6 then [StopCondition] + Meaning(chain[1..], a, reading)
    else if chain[0] == 7 && reading then [ReadByte] + Meaning(chain[1..], a, reading)
    else if chain[0] == 7 && |chain| > 1 then [WriteByte(chain[1])] + Meaning(chain[2..], a, reading)
    else []
  }

  /** One token together with the payload it owns. */
  datatype Op = End | Start | AddrW | AddrR | Read | Write(payload: byte) | DataEnd | Stop {
    /** Bytes the operation takes up in a chain. */
    function Size(): nat {
      if Write? then 2 else 1
    }

    /** Direction in force after the operation. */
    function Reading(before: bool): bool {
      if AddrW? then false else if AddrR? then true else before
    }

    function Encode(): seq<byte> {
      match this
      case End => [TK_END]
      case Start => [TK_START]
      case AddrW => [TK_ADDRW]
      case AddrR => [TK_ADDRR]
      case Read => [TK_DAT]
      case Write(payload) => [TK_DAT, payload]
      case DataEnd => [TK_DATA_END]
      case Stop => [TK_STOP]
    }

    function Event(a: byte): Event
      requires !End?
    {
      match this
      case Start => StartCondition
      case AddrW => Address(a, false)
      case AddrR => Address(a, true)
      case Read => ReadByte
      case Write(payload) => WriteByte(payload)
      case DataEnd => Nack
      case Stop => StopCondition
    }
  }

  /** The operation that starts with byte `tok`; `next` is the byte after it in memory. */
  function Decode(tok: byte, next: byte, reading: bool): Option<Op> {
    if tok == TK_END then Some(End)
    else if tok == TK_START then Some(Start)
    else if tok == TK_ADDRW then Some(AddrW)
    else if tok == TK_ADDRR then Some(AddrR)
    else if tok == TK_DAT then Some(if reading then Read else Write(next))
    else if tok == TK_DATA_END then Some(DataEnd)
    else if tok == TK_STOP then Some(Stop)
    else None
  }

  /** A request as the driver sees it in memory: the chain, and the one byte that happens to follow it.
      The driver reads that byte when the chain ends in a write DAT without its payload. */
  type Cells = c: seq<byte> | |c| >= 1 witness [0]

  function Len(c: Cells): nat {
    |c| - 1
  }

  function Chain(c: Cells): seq<byte> {
    c[..Len(c)]
  }

  /** Every token from offset `i` on is known. */
  predicate Known(c: Cells, i: nat, reading: bool)
    decreases |c| - i
  {
    i >= Len(c) ||
    var op := Decode(c[i], c[i + 1], reading);
    op.Some? && Known(c, i + op.value.Size(), op.value.Reading(reading))
  }

  /** The operations from offset `i` on, up to the end of the chain or the first unknown token. */
  function Parse(c: Cells, i: nat, reading: bool): seq<Op>
    decreases |c| - i
  {
    if i >= Len(c) then [] else
    var op := Decode(c[i], c[i + 1], reading);
    if op.None? then [] else
    [op.value] + Parse(c, i + op.value.Size(), op.value.Reading(reading))
  }

  /** Where the parse from offset `i` stops; one past the chain when the last payload is missing. */
  function ParseEnd(c: Cells, i: nat, reading: bool): (end: nat)
    ensures i <= end && (i <= |c| ==> end <= |c|)
    decreases |c| - i
  {
    if i >= Len(c) then i else
    var op := Decode(c[i], c[i + 1], reading);
    if op.None? then i else ParseEnd(c, i + op.value.Size(), op.value.Reading(reading))
  }

  /** The parse from offset `i` with direction `d` comes by offset `j` with direction `e`. */
  predicate ParseReaches(c: Cells, i: nat, d: bool, j: nat, e: bool)
    decreases |c| - i
  {
    (i == j && d == e) ||
    (i < Len(c) &&
     var op := Decode(c[i], c[i + 1], d);
     op.Some? && ParseReaches(c, i + op.value.Size(), op.value.Reading(d), j, e))
  }

  /** An address token comes before the first DAT. */
  predicate AddressFirst(c: Cells, i: nat)
    decreases |c| - i
  {
    i >= Len(c) || c[i] == TK_ADDRW || c[i] == TK_ADDRR || (c[i] != TK_DAT && AddressFirst(c, i + 1))
  }

  /** An address token or END comes before the first DAT, or there is none. */
  predicate Settles(c: Cells, i: nat)
    decreases |c| - i
  {
    i >= Len(c) || c[i] == TK_ADDRW || c[i] == TK_ADDRR || c[i] == TK_END || (c[i] != TK_DAT && Settles(c, i + 1))
  }

  predicate EndsOnlyAtTail(ops: seq<Op>) {
    forall k, l :: 0 <= k < l < |ops| && ops[k].End? ==> ops[l].End?
  }

  /** What the server promises about a chain: known tokens only, an address before the first DAT,
      payloads inside the chain, END only at the end. */
  predicate WellFormed(c: Cells) {
    && Known(c, 0, false)
    && ParseEnd(c, 0, false) == Len(c)
    && AddressFirst(c, 0)
    && EndsOnlyAtTail(Parse(c, 0, false))
  }

  /** The events of a list of operations, which END cuts off. */
  function Events(ops: seq<Op>, a: byte): seq<Event> {
    if ops == [] || ops[0].End? then [] else [ops[0].Event(a)] + Events(ops[1..], a)
  }

  function EncodeAll(ops: seq<Op>): seq<byte> {
    if ops == [] then [] else ops[0].Encode() + EncodeAll(ops[1..])
  }

  predicate HasEnd(ops: seq<Op>) {
    End in ops
  }

  function Ends(k: nat): (ops: seq<Op>)
    ensures |ops| == k && forall j :: 0 <= j < k ==> ops[j] == End
  {
    seq(k, _ => End)
  }

  /** Operations that can stand after one another: DAT reads after a read address, writes after a
      write address. */
  predicate Directed(ops: seq<Op>, reading: bool) {
    ops == [] ||
    ((ops[0].Read? ==> reading) && (ops[0].Write? ==> !reading) &&
     Directed(ops[1..], ops[0].Reading(reading)))
  }

  /** The operations before the first END fit the direction. */
  predicate DirectedToEnd(ops: seq<Op>, reading: bool) {
    ops == [] || ops[0].End? ||
    ((ops[0].Read? ==> reading) && (ops[0].Write? ==> !reading) &&
     DirectedToEnd(ops[1..], ops[0].Reading(reading)))
  }

  function LastDirection(ops: seq<Op>, reading: bool): bool {
    if ops == [] then reading else LastDirection(ops[1..], ops[0].Reading(reading))
  }

  // ---------- Lemmas ----------

  lemma {:induction false} EventsConcat(x: seq<Op>, y: seq<Op>, a: byte)
    ensures Events(x + y, a) == if HasEnd(x) then Events(x, a) else Events(x, a) + Events(y, a)
  {
    if x == [] {
      assert x + y == y;
    } else {
      assert (x + y)[1..] == x[1..] + y;
      assert x == [x[0]] + x[1..];
      if !x[0].End? {
        EventsConcat(x[1..], y, a);
      }
    }
  }

  lemma MeaningStep(chain: seq<byte>, next: byte, a: byte, reading: bool)
    requires chain != []
    requires Decode(chain[0], next, reading).Some?
    requires Decode(chain[0], next, reading).value.Size() <= |chain|
    requires |chain| > 1 ==> next == chain[1]
    ensures var op := Decode(chain[0], next, reading).value;
      Meaning(chain, a, reading) ==
      if op.End? then [] else [op.Event(a)] + Meaning(chain[op.Size()..], a, op.Reading(reading))
  {
  }

  lemma EncodeStep(tok: byte, next: byte, reading: bool)
    ensures var op := Decode(tok, next, reading);
      op.Some? ==> op.value.Encode() == if op.value.Size() == 1 then [tok] else [tok, next]
  {
  }

  /** What parsing adds to the meaning of a chain that ends in a write DAT without its payload: a write of
      the byte behind it. */
  function Stale(c: Cells, i: nat, reading: bool): seq<Event>
    requires i <= Len(c) && Known(c, i, reading)
  {
    if !HasEnd(Parse(c, i, reading)) && ParseEnd(c, i, reading) > Len(c) then [WriteByte(c[Len(c)])] else []
  }

  /** The operations a chain parses into mean what the bytes mean, and no more unless its last payload is
      missing. */
  lemma {:induction false} ParseMeaning(c: Cells, i: nat, reading: bool, a: byte)
    requires i <= Len(c) && Known(c, i, reading)
    ensures Events(Parse(c, i, reading), a) == Meaning(c[i..Len(c)], a, reading) + Stale(c, i, reading)
    decreases |c| - i
  {
    hide Decode, Op.Event, Op.Reading, Stale, Known, Parse, Events, Meaning, ParseEnd;
    var n := Len(c);
    if i < n {
      MeaningCons(c, i, reading, a);
      var op := Decode(c[i], c[i + 1], reading).value;
      var j := i + op.Size();
      if j <= n {
        ParseMeaning(c, j, op.Reading(reading), a);
        assert c[i..n][op.Size()..] == c[j..n];
        MeaningStep(c[i..n], c[i + 1], a, reading);
        if !op.End? {
          Associate([op.Event(a)], Meaning(c[j..n], a, op.Reading(reading)), Stale(c, i, reading));
        }
      } else {
        MissingPayload(c, i, reading, a);
      }
    } else {
      NothingLeft(c, i, reading, a);
    }
  }

  lemma Associate<T>(x: seq<T>, y: seq<T>, z: seq<T>)
    ensures (x + y) + z == x + (y + z)
  {
  }

  lemma NothingLeft(c: Cells, i: nat, reading: bool, a: byte)
    requires i == Len(c)
    ensures Parse(c, i, reading) == [] && c[i..Len(c)] == [] && Stale(c, i, reading) == []
    ensures Events([], a) == Meaning([], a, reading) == []
  {
  }

  lemma MissingPayload(c: Cells, i: nat, reading: bool, a: byte)
    requires i < Len(c) && Known(c, i, reading)
    requires i + Decode(c[i], c[i + 1], reading).value.Size() > Len(c)
    ensures Events(Parse(c, i, reading), a) == Stale(c, i, reading) && Meaning(c[i..Len(c)], a, reading) == []
  {
    var n := Len(c);
    var op := Decode(c[i], c[i + 1], reading).value;
    assert Parse(c, i, reading) == [op] && c[i..n] == [TK_DAT] && op == Write(c[n]);
    assert Events([op], a) == [WriteByte(c[n])] + Events([op][1..], a);
  }

  lemma MeaningCons(c: Cells, i: nat, reading: bool, a: byte)
    requires i < Len(c) && Known(c, i, reading)
    ensures Decode(c[i], c[i + 1], reading).Some?
    ensures var op := Decode(c[i], c[i + 1], reading).value;
      var j := i + op.Size();
      j <= Len(c) ==>
        && Known(c, j, op.Reading(reading))
        && Events(Parse(c, i, reading), a) ==
           (if op.End? then [] else [op.Event(a)] + Events(Parse(c, j, op.Reading(reading)), a))
        && Stale(c, i, reading) == if op.End? then [] else Stale(c, j, op.Reading(reading))
  {
    hide Decode, Op.Event, Op.Reading;
    var op := Decode(c[i], c[i + 1], reading).value;
    var j := i + op.Size();
    if j <= Len(c) {
      var rest := Parse(c, j, op.Reading(reading));
      var p := Parse(c, i, reading);
      assert p == [op] + rest && p[0] == op && p[1..] == rest;
      assert HasEnd(p) <==> op.End? || HasEnd(rest);
    }
  }

  /** Writing the parsed operations back gives the chain, up to the byte of a missing payload. */
  lemma {:induction false} ParseEncode(c: Cells, i: nat, reading: bool)
    requires i <= Len(c) && Known(c, i, reading)
    ensures EncodeAll(Parse(c, i, reading)) == c[i..ParseEnd(c, i, reading)]
    ensures ParseEnd(c, i, reading) >= Len(c)
    decreases |c| - i
  {
    hide Decode, Op.Encode, Op.Reading;
    if i < Len(c) {
      var op := Decode(c[i], c[i + 1], reading).value;
      var j := i + op.Size();
      EncodeStep(c[i], c[i + 1], reading);
      assert op.Encode() == c[i..j];
      assert Parse(c, i, reading)[1..] == Parse(c, j, op.Reading(reading));
      if j <= Len(c) {
        ParseEncode(c, j, op.Reading(reading));
        SliceConcat(c, i, j, ParseEnd(c, i, reading));
      }
    }
  }

  lemma SliceConcat<T>(s: seq<T>, i: nat, j: nat, k: nat)
    requires i <= j <= k <= |s|
    ensures s[i..j] + s[j..k] == s[i..k]
  {
  }

  lemma {:induction false} EncodeConcat(x: seq<Op>, y: seq<Op>)
    ensures EncodeAll(x + y) == EncodeAll(x) + EncodeAll(y)
  {
    hide Op.Encode;
    if x == [] {
      assert x + y == y;
    } else {
      assert (x + y)[1..] == x[1..] + y;
      EncodeConcat(x[1..], y);
      assert (x[0].Encode() + EncodeAll(x[1..])) + EncodeAll(y) == x[0].Encode() + (EncodeAll(x[1..]) + EncodeAll(y));
    }
  }

  /** Until an address token sets it, the direction has no influence on the parse. */
  lemma {:induction false} DirectionIrrelevant(c: Cells, i: nat, d: bool, e: bool)
    requires AddressFirst(c, i)
    ensures Parse(c, i, d) == Parse(c, i, e)
    ensures Known(c, i, d) == Known(c, i, e)
    ensures ParseEnd(c, i, d) == ParseEnd(c, i, e)
    decreases |c| - i
  {
    if i < Len(c) {
      DecodeDirection(c[i], c[i + 1], d, e);
      if c[i] != TK_ADDRW && c[i] != TK_ADDRR {
        hide Decode;
        DirectionIrrelevant(c, i + 1, d, e);
      }
    }
  }

  lemma DecodeDirection(tok: byte, next: byte, d: bool, e: bool)
    requires tok != TK_DAT
    ensures Decode(tok, next, d) == Decode(tok, next, e)
    ensures Decode(tok, next, d).Some? ==> Decode(tok, next, d).value.Size() == 1
    ensures Decode(tok, next, d).Some? ==>
      var op := Decode(tok, next, d).value;
      ((tok == TK_ADDRW || tok == TK_ADDRR) ==> op.Reading(d) == op.Reading(e)) &&
      (tok != TK_ADDRW && tok != TK_ADDRR ==> op.Reading(d) == d && op.Reading(e) == e)
  {
  }
}
