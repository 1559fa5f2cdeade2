/**
 Cutting a request into hardware lists.

 `Load` is the specification of one pass of the driver's token loader: from a resume offset it takes
 operations until the list holds sixteen tokens or eight data bytes, padding with END behind the end of
 the request.  `Lists` repeats it until the request is used up.  `HwList` is the list processor.
 The main results: the lists of a request perform what the request means, they can be turned back
 into the request, and there are as many of them as the chunk bound says.
 */
module Loader {
  import opened Options
  import opened Tokens
  import opened Registers

  /** One pass of the loader: the operations it put into the list, the offset and direction it ended
      with, and whether it reached the end of the list rather than an unknown token. */
  datatype Chunk = Chunk(ok: bool, ops: seq<Op>, next: nat, reading: bool)

  /** The loader's loop, `acc` being the operations loaded so far. */
  function LoadFrom(c: Cells, i: nat, reading: bool, acc: seq<Op>): (r: Chunk)
    requires Fits(acc)
    ensures Fits(r.ops) && acc <= r.ops && i <= r.next
    ensures r.next + |acc| + |Payloads(acc)| == i + |r.ops| + |Payloads(r.ops)|
    ensures r.ok ==> |r.ops| == MAX_TOKENS || |Payloads(r.ops)| == MAX_DATA
    decreases MAX_TOKENS - |acc|
  {
    if |acc| == MAX_TOKENS || |Payloads(acc)| == MAX_DATA then Chunk(true, acc, i, reading)
    else if i >= Len(c) then
      PayloadsSnoc(acc, End);
      LoadFrom(c, i + 1, reading, acc + [End])
    else
      var op := Decode(c[i], c[i + 1], reading);
      if op.None? then Chunk(false, acc, i, reading) else
      PayloadsSnoc(acc, op.value);
      LoadFrom(c, i + op.value.Size(), op.value.Reading(reading), acc + [op.value])
  }

  function Load(c: Cells, i: nat, reading: bool): Chunk {
    LoadFrom(c, i, reading, [])
  }

  /** All lists of a request from offset `i` on.  The first one is loaded even if nothing is left. */
  function Lists(c: Cells, i: nat, reading: bool): (r: seq<Chunk>)
    ensures |r| > 0 && r[0] == Load(c, i, reading)
    decreases |c| - i
  {
    var ch := Load(c, i, reading);
    if !ch.ok || ch.next >= Len(c) then [ch] else [ch] + Lists(c, ch.next, ch.reading)
  }

  // ---------- The list processor ----------

  datatype Performed = Performed(events: seq<Event>, reading: bool)

  function Then(e: Event, rest: Performed): Performed {
    rest.(events := [e] + rest.events)
  }

  /** What the list processor does from token `k` on, `j` being the data bytes it has used and `reading`
      the direction bit of the last address it sent.  It stops at END or after sixteen tokens.  The
      tokens are written as numbers: 1 START, 2 ADDRW, 3 ADDRR, 4 DATA, 5 DATA_END, 6 STOP. */
  function HwFrom(l: ListRegs, a: byte, k: nat, j: nat, reading: bool): Performed
    requires k <= MAX_TOKENS
    decreases MAX_TOKENS - k
  {
    if k == MAX_TOKENS then Performed([], reading) else
    var t := TokenNo(l, k);
    if t == 1 then Then(StartCondition, HwFrom(l, a, k + 1, j, reading))
    else if t == 2 then Then(Address(a, false), HwFrom(l, a, k + 1, j, false))
    else if t == 3 then Then(Address(a, true), HwFrom(l, a, k + 1, j, true))
    else if t == 4 && reading then Then(ReadByte, HwFrom(l, a, k + 1, j, reading))
    else if t == 4 && j < MAX_DATA then Then(WriteByte(DataNo(l, j)), HwFrom(l, a, k + 1, j + 1, reading))
    else if t == 5 then Then(Nack, HwFrom(l, a, k + 1, j, reading))
    else if t == 6 then Then(StopCondition, HwFrom(l, a, k + 1, j, reading))
    else Performed([], reading)
  }

  /** What one list does on the bus when the last address sent had direction `reading`. */
  function HwList(l: ListRegs, a: byte, reading: bool): Performed {
    HwFrom(l, a, 0, 0, reading)
  }

  /** What successive lists do, the direction carried from one to the next. */
  function HwLists(chunks: seq<Chunk>, a: byte, reading: bool): Performed
    requires forall ch <- chunks :: Fits(ch.ops)
  {
    if chunks == [] then Performed([], reading) else
    var first := HwList(Pack(chunks[0].ops), a, reading);
    var rest := HwLists(chunks[1..], a, first.reading);
    rest.(events := first.events + rest.events)
  }

  // ---------- Basic facts ----------

  lemma PayloadsSnoc(ops: seq<Op>, op: Op)
    ensures Payloads(ops + [op]) == Payloads(ops) + if op.Write? then [op.payload] else []
  {
    assert (ops + [op])[..|ops|] == ops;
  }

  lemma {:induction false} PayloadsMonotone(ops: seq<Op>, k: nat)
    requires k <= |ops|
    ensures |Payloads(ops[..k])| <= |Payloads(ops)|
    ensures Payloads(ops[..k]) == Payloads(ops)[..|Payloads(ops[..k])|]
  {
    if k < |ops| {
      PayloadsMonotone(ops[..|ops| - 1], k);
      assert ops[..|ops| - 1][..k] == ops[..k];
    } else {
      assert ops[..k] == ops;
    }
  }

  lemma {:induction false} ListsFit(c: Cells, i: nat, reading: bool)
    ensures forall ch <- Lists(c, i, reading) :: Fits(ch.ops)
    decreases |c| - i
  {
    var ch := Load(c, i, reading);
    if ch.ok && ch.next < Len(c) {
      ListsFit(c, ch.next, ch.reading);
    }
  }

  // ---------- Chunk bound ----------

  /** A list that is started holds sixteen to twenty-four bytes' worth of the request, padding counted. */
  lemma ChunkSize(c: Cells, i: nat, reading: bool)
    requires Load(c, i, reading).ok
    ensures i + 16 <= Load(c, i, reading).next <= i + 24
  {
    var ch := Load(c, i, reading);
    assert |Payloads(ch.ops)| <= |ch.ops|;
  }

  /** A request of n bytes takes between ceil(n/24) and ceil(n/16) lists, an empty one takes one. */
  lemma {:induction false} ListCount(c: Cells, i: nat, reading: bool)
    requires i <= Len(c) && Known(c, i, reading)
    ensures var left := Len(c) - i;
      if left == 0 then |Lists(c, i, reading)| == 1
      else (left + 23) / 24 <= |Lists(c, i, reading)| <= (left + 15) / 16
    decreases |c| - i
  {
    LoadKnown(c, i, reading);
    ChunkSize(c, i, reading);
    var ch := Load(c, i, reading);
    if ch.next < Len(c) {
      ListCount(c, ch.next, ch.reading);
    }
  }

  // ---------- Loading follows the parse ----------

  /** Loading a stretch of known tokens succeeds and stops on a token boundary of the parse, with the
      parse's direction: a DAT is never split from its payload. */
  lemma {:induction false} LoadStops(c: Cells, i: nat, reading: bool, acc: seq<Op>)
    requires Fits(acc) && Known(c, i, reading)
    ensures var r := LoadFrom(c, i, reading, acc);
      && r.ok
      && Known(c, r.next, r.reading)
      && (r.next < Len(c) ==> ParseReaches(c, i, reading, r.next, r.reading))
      && (r.next < Len(c) ==> ParseEnd(c, r.next, r.reading) == ParseEnd(c, i, reading))
    decreases MAX_TOKENS - |acc|
  {
    hide Decode, Op.Reading;
    if |acc| == MAX_TOKENS || |Payloads(acc)| == MAX_DATA {
    } else if i >= Len(c) {
      PayloadsSnoc(acc, End);
      LoadStops(c, i + 1, reading, acc + [End]);
    } else {
      var op := Decode(c[i], c[i + 1], reading).value;
      PayloadsSnoc(acc, op);
      LoadStops(c, i + op.Size(), op.Reading(reading), acc + [op]);
    }
  }

  /** One turn of the loader's loop. */
  lemma LoadStep(c: Cells, i: nat, d: bool, acc: seq<Op>)
    requires Fits(acc)
    ensures |acc| == MAX_TOKENS || |Payloads(acc)| == MAX_DATA ==> LoadFrom(c, i, d, acc) == Chunk(true, acc, i, d)
    ensures |acc| < MAX_TOKENS && |Payloads(acc)| < MAX_DATA ==>
      if i >= Len(c) then
        Fits(acc + [End]) && LoadFrom(c, i, d, acc) == LoadFrom(c, i + 1, d, acc + [End])
      else
        var op := Decode(c[i], c[i + 1], d);
        if op.None? then LoadFrom(c, i, d, acc) == Chunk(false, acc, i, d)
        else
          && Fits(acc + [op.value])
          && LoadFrom(c, i, d, acc) == LoadFrom(c, i + op.value.Size(), op.value.Reading(d), acc + [op.value])
  {
    hide Decode, Op.Reading;
    PayloadsSnoc(acc, End);
    if i < Len(c) {
      var op := Decode(c[i], c[i + 1], d);
      if op.Some? {
        PayloadsSnoc(acc, op.value);
      }
    }
  }

  /** A list that does not finish the request takes exactly the operations the parse has up to its
      resume offset; one that does takes the rest of the parse and END padding. */
  lemma {:induction false} LoadTakes(c: Cells, i: nat, reading: bool, acc: seq<Op>)
    requires Fits(acc) && Known(c, i, reading)
    ensures var r := LoadFrom(c, i, reading, acc);
      r.ops + Parse(c, r.next, r.reading) ==
      acc + Parse(c, i, reading) + if r.next < Len(c) then [] else Ends(Padding(c, i, reading, acc))
    decreases MAX_TOKENS - |acc|
  {
    hide Decode, Op.Reading, LoadFrom, Padding, Parse, Payloads;
    var p := Parse(c, i, reading);
    if |acc| == MAX_TOKENS || |Payloads(acc)| == MAX_DATA {
      LoadFull(c, i, reading, acc);
      assert acc + p + Ends(0) == acc + p + [] == acc + p;
    } else if i >= Len(c) {
      LoadPad(c, i, reading, acc);
      LoadTakes(c, i + 1, reading, acc + [End]);
      PadLeft(acc, Padding(c, i + 1, reading, acc + [End]));
    } else {
      LoadOne(c, i, reading, acc);
      var op := Decode(c[i], c[i + 1], reading).value;
      LoadTakes(c, i + op.Size(), op.Reading(reading), acc + [op]);
      MoveOne(acc, op, Parse(c, i + op.Size(), op.Reading(reading)));
    }
  }

  lemma PadLeft(acc: seq<Op>, k: nat)
    ensures (acc + [End]) + [] + Ends(k) == acc + [] + Ends(1 + k)
  {
  }

  lemma MoveOne<T>(x: seq<T>, y: T, z: seq<T>)
    ensures (x + [y]) + z == x + ([y] + z)
  {
  }

  lemma LoadFull(c: Cells, i: nat, reading: bool, acc: seq<Op>)
    requires Fits(acc) && (|acc| == MAX_TOKENS || |Payloads(acc)| == MAX_DATA)
    ensures LoadFrom(c, i, reading, acc) == Chunk(true, acc, i, reading)
    ensures Padding(c, i, reading, acc) == 0
  {
  }

  lemma LoadPad(c: Cells, i: nat, reading: bool, acc: seq<Op>)
    requires |acc| < MAX_TOKENS && |Payloads(acc)| < MAX_DATA && i >= Len(c)
    ensures Fits(acc + [End])
    ensures LoadFrom(c, i, reading, acc) == LoadFrom(c, i + 1, reading, acc + [End])
    ensures Padding(c, i, reading, acc) == 1 + Padding(c, i + 1, reading, acc + [End])
    ensures Known(c, i + 1, reading) && LoadFrom(c, i, reading, acc).next >= Len(c)
    ensures Parse(c, i, reading) == Parse(c, i + 1, reading) == []
  {
    PayloadsSnoc(acc, End);
  }

  lemma LoadOne(c: Cells, i: nat, reading: bool, acc: seq<Op>)
    requires |acc| < MAX_TOKENS && |Payloads(acc)| < MAX_DATA && i < Len(c) && Known(c, i, reading)
    ensures Decode(c[i], c[i + 1], reading).Some?
    ensures var op := Decode(c[i], c[i + 1], reading).value;
      && Fits(acc + [op])
      && Known(c, i + op.Size(), op.Reading(reading))
      && LoadFrom(c, i, reading, acc) == LoadFrom(c, i + op.Size(), op.Reading(reading), acc + [op])
      && Padding(c, i, reading, acc) == Padding(c, i + op.Size(), op.Reading(reading), acc + [op])
      && Parse(c, i, reading) == [op] + Parse(c, i + op.Size(), op.Reading(reading))
  {
    hide Decode, Op.Reading;
    PayloadsSnoc(acc, Decode(c[i], c[i + 1], reading).value);
  }

  /** How many END tokens the loader adds behind the request. */
  function Padding(c: Cells, i: nat, reading: bool, acc: seq<Op>): nat
    requires Fits(acc)
    decreases MAX_TOKENS - |acc|
  {
    if |acc| == MAX_TOKENS || |Payloads(acc)| == MAX_DATA then 0
    else if i >= Len(c) then
      PayloadsSnoc(acc, End);
      1 + Padding(c, i + 1, reading, acc + [End])
    else
      var op := Decode(c[i], c[i + 1], reading);
      if op.None? then 0 else
      PayloadsSnoc(acc, op.value);
      Padding(c, i + op.value.Size(), op.value.Reading(reading), acc + [op.value])
  }

  lemma LoadKnown(c: Cells, i: nat, reading: bool)
    requires Known(c, i, reading)
    ensures var r := Load(c, i, reading); r.ok && Known(c, r.next, r.reading)
  {
    LoadStops(c, i, reading, []);
  }

  lemma {:induction false} PastEndLoads(c: Cells, i: nat, d: bool, acc: seq<Op>)
    requires Fits(acc) && i >= Len(c)
    ensures LoadFrom(c, i, d, acc).ok
    decreases MAX_TOKENS - |acc|
  {
    hide LoadFrom, Payloads;
    LoadStep(c, i, d, acc);
    if |acc| < MAX_TOKENS && |Payloads(acc)| < MAX_DATA {
      PastEndLoads(c, i + 1, d, acc + [End]);
    }
  }

  lemma FullStays(acc: seq<Op>, rest: seq<Op>)
    ensures |Payloads(acc + rest)| >= |Payloads(acc)|
  {
    PayloadsMonotone(acc + rest, |acc|);
    assert (acc + rest)[..|acc|] == acc;
  }

  /** A load succeeds exactly when all tokens are known, or the list is full before the first unknown one. */
  lemma {:induction false} LoadsExactly(c: Cells, i: nat, d: bool, acc: seq<Op>)
    requires Fits(acc)
    ensures var ops := acc + Parse(c, i, d);
      LoadFrom(c, i, d, acc).ok <==> Known(c, i, d) || |ops| >= 16 || |Payloads(ops)| >= 8
    decreases MAX_TOKENS - |acc|
  {
    hide LoadFrom, Payloads, Decode, Op.Reading, Op.Size;
    LoadStep(c, i, d, acc);
    FullStays(acc, Parse(c, i, d));
    if |acc| < MAX_TOKENS && |Payloads(acc)| < MAX_DATA {
      if i >= Len(c) {
        PastEndLoads(c, i, d, acc);
      } else {
        var op := Decode(c[i], c[i + 1], d);
        if op.None? {
          assert acc + [] == acc;
        } else {
          var rest := Parse(c, i + op.value.Size(), op.value.Reading(d));
          LoadsExactly(c, i + op.value.Size(), op.value.Reading(d), acc + [op.value]);
          MoveOne(acc, op.value, rest);
        }
      }
    }
  }

  // ---------- The list processor follows the operations ----------

  /** On a packed list the processor performs the events of its operations; unless END stops it, it ends
      with the direction the operations end with. */
  lemma {:induction false} HwFollows(ops: seq<Op>, a: byte, k: nat, reading: bool)
    requires Fits(ops) && k <= |ops| && DirectedToEnd(ops[k..], reading)
    ensures |Payloads(ops[..k])| <= |Payloads(ops)|
    ensures var p := HwFrom(Pack(ops), a, k, |Payloads(ops[..k])|, reading);
      && p.events == Events(ops[k..], a)
      && (!HasEnd(ops[k..]) ==> p.reading == LastDirection(ops[k..], reading))
    decreases |ops| - k
  {
    hide Pack, TokenNo, DataNo, Payloads, HwFrom, Code, Op.Event, Op.Reading;
    PayloadsMonotone(ops, k);
    var j := |Payloads(ops[..k])|;
    if k < |ops| {
      var op := ops[k];
      assert ops[..k] + [op] == ops[..k + 1];
      PayloadsSnoc(ops[..k], op);
      PayloadsMonotone(ops, k + 1);
      assert ops[k..][1..] == ops[k + 1..];
      PackUnpackTokens(ops, k);
      if op.Write? {
        assert Payloads(ops)[j] == op.payload;
        PackUnpackData(ops, j);
      }
      if !op.End? {
        HwFollows(ops, a, k + 1, op.Reading(reading));
      }
      HwOne(Pack(ops), op, a, k, j, reading);
    } else {
      if k < MAX_TOKENS {
        PackUnpackTokens(ops, k);
      }
      HwStops(Pack(ops), a, k, j, reading);
    }
  }

  lemma HwStops(l: ListRegs, a: byte, k: nat, j: nat, reading: bool)
    requires k <= MAX_TOKENS && (k < MAX_TOKENS ==> TokenNo(l, k) == OC4_END)
    ensures HwFrom(l, a, k, j, reading) == Performed([], reading)
  {
  }

  /** One step of the processor. */
  lemma HwOne(l: ListRegs, op: Op, a: byte, k: nat, j: nat, reading: bool)
    requires k < MAX_TOKENS && TokenNo(l, k) == Code(op)
    requires (op.Read? ==> reading) && (op.Write? ==> !reading && j < MAX_DATA && DataNo(l, j) == op.payload)
    ensures HwFrom(l, a, k, j, reading) ==
      if op.End? then Performed([], reading)
      else Then(op.Event(a), HwFrom(l, a, k + 1, if op.Write? then j + 1 else j, op.Reading(reading)))
  {
  }

  // ---------- Direction ----------

  lemma {:induction false} LastSnoc(ops: seq<Op>, op: Op, d: bool)
    ensures LastDirection(ops + [op], d) == op.Reading(LastDirection(ops, d))
  {
    if ops == [] {
      assert ops + [op] == [op];
    } else {
      assert (ops + [op])[1..] == ops[1..] + [op];
      LastSnoc(ops[1..], op, ops[0].Reading(d));
    }
  }

  lemma {:induction false} DirectedSnoc(ops: seq<Op>, op: Op, d: bool)
    requires Directed(ops, d)
    requires (op.Read? ==> LastDirection(ops, d)) && (op.Write? ==> !LastDirection(ops, d))
    ensures Directed(ops + [op], d)
  {
    if ops == [] {
      assert ops + [op] == [op];
    } else {
      assert (ops + [op])[1..] == ops[1..] + [op];
      DirectedSnoc(ops[1..], op, ops[0].Reading(d));
    }
  }

  lemma {:induction false} ToEndSnoc(ops: seq<Op>, op: Op, d: bool)
    requires DirectedToEnd(ops, d)
    requires HasEnd(ops) || ((op.Read? ==> LastDirection(ops, d)) && (op.Write? ==> !LastDirection(ops, d)))
    ensures DirectedToEnd(ops + [op], d)
  {
    if ops == [] {
      assert ops + [op] == [op];
    } else {
      assert (ops + [op])[1..] == ops[1..] + [op];
      assert ops == [ops[0]] + ops[1..];
      if !ops[0].End? {
        ToEndSnoc(ops[1..], op, ops[0].Reading(d));
      }
    }
  }

  lemma DecodeFits(tok: byte, next: byte, reading: bool)
    ensures var op := Decode(tok, next, reading);
      op.Some? ==> (op.value.Read? ==> reading) && (op.value.Write? ==> !reading)
  {
  }

  /** The direction a load ends with is the one its operations end with. */
  lemma {:induction false} LoadDirected(c: Cells, i: nat, reading: bool, acc: seq<Op>, d: bool)
    requires Fits(acc) && Directed(acc, d) && LastDirection(acc, d) == reading
    ensures var r := LoadFrom(c, i, reading, acc);
      Directed(r.ops, d) && LastDirection(r.ops, d) == r.reading
    decreases MAX_TOKENS - |acc|
  {
    hide Decode, Op.Reading, Directed, LastDirection, LoadFrom;
    LoadStep(c, i, reading, acc);
    if |acc| < MAX_TOKENS && |Payloads(acc)| < MAX_DATA {
      if i >= Len(c) {
        DirectedSnoc(acc, End, d);
        LastSnoc(acc, End, d);
        EndKeepsDirection(reading);
        LoadDirected(c, i + 1, reading, acc + [End], d);
      } else {
        var op := Decode(c[i], c[i + 1], reading);
        DecodeFits(c[i], c[i + 1], reading);
        if op.Some? {
          DirectedSnoc(acc, op.value, d);
          LastSnoc(acc, op.value, d);
          LoadDirected(c, i + op.value.Size(), op.value.Reading(reading), acc + [op.value], d);
        }
      }
    }
  }

  lemma EndKeepsDirection(reading: bool)
    ensures End.Reading(reading) == reading
  {
  }

  /** Driver and hardware agree on the direction, or the next DAT comes after an address token or END. */
  predicate Synced(c: Cells, i: nat, d: bool, hw: bool) {
    d == hw || Settles(c, i)
  }

  /** One token keeps driver and hardware in step, and fits the hardware's direction. */
  lemma StepSynced(c: Cells, i: nat, d: bool, hw: bool)
    requires i < Len(c) && Synced(c, i, d, hw) && Decode(c[i], c[i + 1], d).Some?
    ensures var op := Decode(c[i], c[i + 1], d).value;
      && (op.Read? ==> hw) && (op.Write? ==> !hw)
      && (!op.End? ==> Synced(c, i + op.Size(), op.Reading(d), op.Reading(hw)))
  {
  }

  /** Up to an END, what is loaded fits the hardware's direction, and driver and hardware stay in step. */
  lemma {:induction false} LoadSynced(c: Cells, i: nat, d: bool, acc: seq<Op>, hw: bool)
    requires Fits(acc) && DirectedToEnd(acc, hw) && (HasEnd(acc) || Synced(c, i, d, LastDirection(acc, hw)))
    ensures var r := LoadFrom(c, i, d, acc);
      DirectedToEnd(r.ops, hw) && (HasEnd(r.ops) || Synced(c, r.next, r.reading, LastDirection(r.ops, hw)))
    decreases MAX_TOKENS - |acc|
  {
    hide Decode, Op.Reading, Op.Size, DirectedToEnd, LastDirection, LoadFrom, Payloads, Synced;
    LoadStep(c, i, d, acc);
    if |acc| < MAX_TOKENS && |Payloads(acc)| < MAX_DATA {
      if i >= Len(c) {
        ToEndSnoc(acc, End, hw);
        LastSnoc(acc, End, hw);
        LoadSynced(c, i + 1, d, acc + [End], hw);
      } else {
        var op := Decode(c[i], c[i + 1], d);
        if op.Some? {
          if !HasEnd(acc) {
            StepSynced(c, i, d, LastDirection(acc, hw));
          }
          ToEndSnoc(acc, op.value, hw);
          LastSnoc(acc, op.value, hw);
          LoadSynced(c, i + op.value.Size(), op.value.Reading(d), acc + [op.value], hw);
        }
      }
    }
  }

  /** One list performs the events of its operations, and driver and hardware stay in step. */
  lemma ListPerforms(c: Cells, i: nat, d: bool, hw: bool, a: byte)
    requires Synced(c, i, d, hw)
    ensures var ch := Load(c, i, d); var p := HwList(Pack(ch.ops), a, hw);
      p.events == Events(ch.ops, a) && (!HasEnd(ch.ops) ==> Synced(c, ch.next, ch.reading, p.reading))
  {
    hide Pack, HwFrom, LoadFrom;
    LoadSynced(c, i, d, [], hw);
    var ops := Load(c, i, d).ops;
    assert ops[0..] == ops && ops[..0] == [];
    HwFollows(ops, a, 0, hw);
  }

  // ---------- Meaning preservation ----------

  /** Lists that do nothing because they begin with END. */
  predicate Silent(chunks: seq<Chunk>) {
    chunks == [] || (chunks[0].ops != [] && chunks[0].ops[0].End? && Silent(chunks[1..]))
  }

  /** Every list after the one that holds the first END begins with END itself. */
  predicate QuietAfterEnd(chunks: seq<Chunk>) {
    chunks == [] ||
    if HasEnd(chunks[0].ops) then Silent(chunks[1..]) else QuietAfterEnd(chunks[1..])
  }

  lemma FirstToken(ops: seq<Op>, a: byte, hw: bool)
    requires Fits(ops) && ops != []
    ensures HwList(Pack(ops), a, hw).events == [] <==> ops[0].End?
  {
    hide Pack, TokenNo, DataNo;
    PackUnpackTokens(ops, 0);
  }

  lemma {:induction false} SilentLists(chunks: seq<Chunk>, a: byte, hw: bool)
    requires forall ch <- chunks :: Fits(ch.ops) && ch.ops != []
    ensures HwLists(chunks, a, hw).events == [] <==> Silent(chunks)
  {
    hide HwList, Pack;
    if chunks != [] {
      var first := HwList(Pack(chunks[0].ops), a, hw);
      FirstToken(chunks[0].ops, a, hw);
      SilentLists(chunks[1..], a, first.reading);
      var rest := HwLists(chunks[1..], a, first.reading).events;
      assert |first.events + rest| == |first.events| + |rest|;
    }
  }

  lemma {:induction false} ListsKnown(c: Cells, i: nat, reading: bool)
    requires Known(c, i, reading)
    ensures forall ch <- Lists(c, i, reading) :: ch.ok && Fits(ch.ops) && ch.ops != []
    decreases |c| - i
  {
    LoadKnown(c, i, reading);
    var ch := Load(c, i, reading);
    if ch.next < Len(c) {
      ListsKnown(c, ch.next, ch.reading);
    }
  }

  lemma {:induction false} EventsOfEnds(k: nat, a: byte)
    ensures Events(Ends(k), a) == []
  {
  }

  lemma ParseDone(c: Cells, i: nat, d: bool)
    requires i >= Len(c)
    ensures Parse(c, i, d) == []
  {
  }

  /** A list that finishes the request performs the rest of it. */
  lemma LastList(c: Cells, i: nat, d: bool, a: byte)
    requires Known(c, i, d) && Load(c, i, d).next >= Len(c)
    ensures Events(Load(c, i, d).ops, a) == Events(Parse(c, i, d), a)
  {
    hide LoadFrom, Parse, Padding;
    var ch := Load(c, i, d);
    LoadTakes(c, i, d, []);
    ParseDone(c, ch.next, ch.reading);
    var k := Padding(c, i, d, []);
    assert ch.ops + [] == ch.ops && [] + Parse(c, i, d) == Parse(c, i, d);
    assert ch.ops == Parse(c, i, d) + Ends(k);
    EventsConcat(Parse(c, i, d), Ends(k), a);
    EventsOfEnds(k, a);
  }

  /** A list that does not finish the request performs its beginning, up to an END. */
  lemma InnerList(c: Cells, i: nat, d: bool, a: byte)
    requires Known(c, i, d) && Load(c, i, d).next < Len(c)
    ensures var ch := Load(c, i, d);
      Events(Parse(c, i, d), a) ==
      Events(ch.ops, a) + if HasEnd(ch.ops) then [] else Events(Parse(c, ch.next, ch.reading), a)
  {
    hide LoadFrom, Parse, Padding;
    var ch := Load(c, i, d);
    LoadTakes(c, i, d, []);
    assert ch.ops + Parse(c, ch.next, ch.reading) == Parse(c, i, d);
    EventsConcat(ch.ops, Parse(c, ch.next, ch.reading), a);
  }

  lemma HwCons(ch: Chunk, rest: seq<Chunk>, a: byte, hw: bool)
    requires Fits(ch.ops) && forall r <- rest :: Fits(r.ops)
    ensures forall r <- [ch] + rest :: Fits(r.ops)
    ensures var p := HwList(Pack(ch.ops), a, hw);
      HwLists([ch] + rest, a, hw).events == p.events + HwLists(rest, a, p.reading).events
  {
    hide HwList, Pack;
    assert ([ch] + rest)[1..] == rest;
  }

  lemma QuietCons(ch: Chunk, rest: seq<Chunk>)
    ensures QuietAfterEnd([ch] + rest) == if HasEnd(ch.ops) then Silent(rest) else QuietAfterEnd(rest)
  {
    assert ([ch] + rest)[1..] == rest;
  }

  /** Over all lists of a request whose tokens are known, the hardware performs exactly the parsed
      operations up to the first END if and only if every list after the first END begins with END. */
  lemma {:induction false} ListsPerformExactly(c: Cells, i: nat, d: bool, hw: bool, a: byte)
    requires i <= Len(c) && Known(c, i, d) && Synced(c, i, d, hw)
    ensures forall ch <- Lists(c, i, d) :: Fits(ch.ops)
    ensures HwLists(Lists(c, i, d), a, hw).events == Events(Parse(c, i, d), a)
            <==> QuietAfterEnd(Lists(c, i, d))
    decreases |c| - i
  {
    hide LoadFrom, Parse, HwFrom, Pack, QuietAfterEnd, Silent, HwLists, Events;
    ListsKnown(c, i, d);
    LoadStops(c, i, d, []);
    ListPerforms(c, i, d, hw, a);
    var ch := Load(c, i, d);
    var p := HwList(Pack(ch.ops), a, hw);
    if ch.next >= Len(c) {
      LastList(c, i, d, a);
      assert Lists(c, i, d) == [ch] + [];
      HwCons(ch, [], a, hw);
      HwNothing(a, p.reading);
      QuietCons(ch, []);
    } else {
      var rest := Lists(c, ch.next, ch.reading);
      ListsKnown(c, ch.next, ch.reading);
      HwCons(ch, rest, a, hw);
      QuietCons(ch, rest);
      InnerList(c, i, d, a);
      if HasEnd(ch.ops) {
        SilentLists(rest, a, p.reading);
        var q := HwLists(rest, a, p.reading).events;
        assert |p.events + q| == |p.events| + |q|;
      } else {
        ListsPerformExactly(c, ch.next, ch.reading, p.reading, a);
        SameHead(p.events, HwLists(rest, a, p.reading).events, Events(Parse(c, ch.next, ch.reading), a));
      }
    }
  }

  lemma HwNothing(a: byte, hw: bool)
    ensures HwLists([], a, hw).events == [] && QuietAfterEnd([]) && Silent([])
  {
  }

  lemma SameHead<T>(x: seq<T>, y: seq<T>, z: seq<T>)
    ensures x + y == x + z <==> y == z
  {
    assert (x + y)[|x|..] == y && (x + z)[|x|..] == z;
  }

  /** A walk over the bytes from offset `i` on, when the current list holds `n` tokens and `m` data bytes so
      far and `ended` tells whether an END came before: wherever a list is full behind an END, the next
      byte is END. */
  predicate QuietBytes(c: Cells, i: nat, reading: bool, n: nat, m: nat, ended: bool)
    requires Known(c, i, reading)
    decreases |c| - i
  {
    i >= Len(c) ||
    var full := n == MAX_TOKENS || m == MAX_DATA;
    var op := Decode(c[i], c[i + 1], reading).value;
    && (full && ended ==> c[i] == TK_END)
    && QuietBytes(c, i + op.Size(), op.Reading(reading), (if full then 0 else n) + 1,
         (if full then 0 else m) + (if op.Write? then 1 else 0), ended || c[i] == TK_END)
  }

  lemma DecodedEnd(tok: byte, next: byte, d: bool)
    ensures var op := Decode(tok, next, d); op.Some? ==> (op.value.End? <==> tok == TK_END)
  {
  }

  lemma QuietStep(c: Cells, i: nat, d: bool, acc: seq<Op>, op: Op, ended: bool)
    requires Known(c, i, d) && i < Len(c) && Decode(c[i], c[i + 1], d) == Some(op)
    requires |acc| < MAX_TOKENS && |Payloads(acc)| < MAX_DATA && Known(c, i + op.Size(), op.Reading(d))
    ensures QuietBytes(c, i, d, |acc|, |Payloads(acc)|, ended || HasEnd(acc)) <==>
      QuietBytes(c, i + op.Size(), op.Reading(d), |acc + [op]|, |Payloads(acc + [op])|, ended || HasEnd(acc + [op]))
  {
    hide Decode, Payloads, Op.Reading;
    DecodedEnd(c[i], c[i + 1], d);
    PayloadsSnoc(acc, op);
  }

  /** One load, seen from the bytes. */
  lemma {:induction false} QuietLoad(c: Cells, i: nat, d: bool, acc: seq<Op>, ended: bool)
    requires Fits(acc) && Known(c, i, d)
    ensures var r := LoadFrom(c, i, d, acc);
      && Known(c, r.next, r.reading)
      && (QuietBytes(c, i, d, |acc|, |Payloads(acc)|, ended || HasEnd(acc)) <==>
          r.next >= Len(c) || QuietBytes(c, r.next, r.reading, |r.ops|, |Payloads(r.ops)|, ended || HasEnd(r.ops)))
    decreases MAX_TOKENS - |acc|
  {
    hide Decode, Op.Reading, Op.Size, LoadFrom, Payloads, Padding, Parse, Known, HasEnd;
    if |acc| == MAX_TOKENS || |Payloads(acc)| == MAX_DATA {
      LoadFull(c, i, d, acc);
    } else if i >= Len(c) {
      LoadPad(c, i, d, acc);
      LoadStops(c, i, d, acc);
    } else {
      LoadOne(c, i, d, acc);
      var op := Decode(c[i], c[i + 1], d).value;
      QuietStep(c, i, d, acc, op, ended);
      QuietLoad(c, i + op.Size(), op.Reading(d), acc + [op], ended);
    }
  }

  lemma ListsCons(c: Cells, i: nat, d: bool)
    requires Known(c, i, d)
    ensures var ch := Load(c, i, d); ch.ok && Known(c, ch.next, ch.reading) && (ch.next < Len(c) ==> ch.next > i)
    ensures var ch := Load(c, i, d);
      Lists(c, i, d) == [ch] + if ch.next >= Len(c) then [] else Lists(c, ch.next, ch.reading)
  {
    hide LoadFrom;
    LoadKnown(c, i, d);
    assert [Load(c, i, d)] + [] == [Load(c, i, d)];
  }

  lemma FirstLoaded(c: Cells, i: nat, d: bool)
    requires Known(c, i, d) && i < Len(c)
    ensures var ops := Load(c, i, d).ops; ops != [] && (ops[0].End? <==> c[i] == TK_END)
  {
    hide Decode, LoadFrom, Padding, Parse, Payloads, Op.Reading, Op.Size;
    NoPayload();
    LoadOne(c, i, d, []);
    DecodedEnd(c[i], c[i + 1], d);
    var op := Decode(c[i], c[i + 1], d).value;
    assert [] + [op] == [op];
    assert [op] <= LoadFrom(c, i + op.Size(), op.Reading(d), [op]).ops;
  }

  lemma FullQuiet(c: Cells, i: nat, d: bool, n: nat, m: nat, ended: bool)
    requires Known(c, i, d) && i < Len(c) && (n == MAX_TOKENS || m == MAX_DATA)
    ensures QuietBytes(c, i, d, n, m, ended) <==> (ended ==> c[i] == TK_END) && QuietBytes(c, i, d, 0, 0, ended)
  {
    hide Decode;
  }

  lemma {:induction false} SilentBytes(c: Cells, i: nat, d: bool)
    requires Known(c, i, d) && i < Len(c)
    ensures Silent(Lists(c, i, d)) <==> c[i] == TK_END && QuietBytes(c, i, d, 0, 0, true)
    decreases |c| - i
  {
    hide LoadFrom, QuietBytes, Known, Payloads;
    var ch := Load(c, i, d);
    ListsCons(c, i, d);
    FirstLoaded(c, i, d);
    QuietLoad(c, i, d, [], true);
    NoPayload();
    if ch.next < Len(c) {
      assert Lists(c, i, d)[1..] == Lists(c, ch.next, ch.reading);
      SilentBytes(c, ch.next, ch.reading);
      FullQuiet(c, ch.next, ch.reading, |ch.ops|, |Payloads(ch.ops)|, true);
    }
  }

  lemma NoPayload()
    ensures Payloads([]) == []
  {
  }

  /** The lists behind the first END begin with END exactly if the bytes say so. */
  lemma {:induction false} QuietLists(c: Cells, i: nat, d: bool)
    requires Known(c, i, d)
    ensures QuietAfterEnd(Lists(c, i, d)) <==> QuietBytes(c, i, d, 0, 0, false)
    decreases |c| - i
  {
    hide LoadFrom, QuietBytes, QuietAfterEnd, Silent, Known, Payloads;
    var ch := Load(c, i, d);
    ListsCons(c, i, d);
    QuietLoad(c, i, d, [], false);
    NoPayload();
    if ch.next < Len(c) {
      QuietCons(ch, Lists(c, ch.next, ch.reading));
      FullQuiet(c, ch.next, ch.reading, |ch.ops|, |Payloads(ch.ops)|, HasEnd(ch.ops));
      if HasEnd(ch.ops) {
        SilentBytes(c, ch.next, ch.reading);
      } else {
        QuietLists(c, ch.next, ch.reading);
      }
    } else {
      QuietCons(ch, []);
      HwNothing(0, false);
    }
  }

  /** With driver and hardware in step. */
  lemma MeaningPreservedSynced(c: Cells, d: bool, hw: bool, a: byte)
    requires Known(c, 0, d) && Synced(c, 0, d, hw)
    ensures forall ch <- Lists(c, 0, d) :: Fits(ch.ops)
    ensures HwLists(Lists(c, 0, d), a, hw).events == Meaning(Chain(c), a, d) <==>
      QuietBytes(c, 0, d, 0, 0, false) && (HasEnd(Parse(c, 0, d)) || ParseEnd(c, 0, d) == Len(c))
  {
    hide Known, Lists, HwLists, Parse, Meaning, Events, QuietAfterEnd, QuietBytes, Synced;
    QuietLists(c, 0, d);
    ListsPerformExactly(c, 0, d, hw, a);
    ParseMeaning(c, 0, d, a);
    assert c[0..Len(c)] == Chain(c);
    ParseEncode(c, 0, d);
    var stale := Stale(c, 0, d);
    assert |Meaning(Chain(c), a, d) + stale| == |Meaning(Chain(c), a, d)| + |stale|;
    if stale == [] {
      assert Meaning(Chain(c), a, d) + [] == Meaning(Chain(c), a, d);
    } else {
      TailEndsAreQuiet(c, 0, d);
    }
  }

  // ---------- Directions that differ ----------

  /** Where the first DAT is, when no address token or END comes before it. */
  function Before(c: Cells, i: nat): nat
    requires !Settles(c, i)
    decreases |c| - i
  {
    if c[i] == TK_DAT then 0 else 1 + Before(c, i + 1)
  }

  /** An operation that performs one event whatever the direction, and leaves it alone. */
  predicate Neutral(op: Op) {
    op.Start? || op.DataEnd? || op.Stop?
  }

  /** What the chain means at its first DAT: what the driver's direction says, or nothing when the payload is
      missing. */
  lemma {:induction false} MeaningAt(c: Cells, i: nat, d: bool, a: byte)
    requires Known(c, i, d) && !Settles(c, i)
    ensures var m, n := Meaning(c[i..Len(c)], a, d), Before(c, i); |m| <= n || m[n].ReadByte? == d
    decreases |c| - i
  {
    var chain := c[i..Len(c)];
    if c[i] != TK_DAT {
      MeaningAt(c, i + 1, d, a);
      assert chain[1..] == c[i + 1..Len(c)];
    }
  }

  /** What the hardware does behind neutral operations: at a DAT what its own direction says. */
  lemma {:induction false} HwNeutral(ops: seq<Op>, a: byte, k: nat, n: nat, hw: bool)
    requires Fits(ops) && k <= n <= |ops| && forall op <- ops[k..n] :: Neutral(op)
    ensures var p := HwFrom(Pack(ops), a, k, 0, hw);
      && (n < |ops| && (ops[n].Read? || ops[n].Write?) ==>
          |p.events| > n - k && (p.events[n - k].ReadByte? <==> hw))
      && (n == MAX_TOKENS ==> |p.events| == n - k && p.reading == hw)
    decreases n - k
  {
    hide Pack, TokenNo, DataNo;
    if k < |ops| {
      PackUnpackTokens(ops, k);
    }
    if k < n {
      assert ops[k] in ops[k..n] && forall op <- ops[k + 1..n] :: op in ops[k..n];
      HwNeutral(ops, a, k + 1, n, hw);
    }
  }

  /** A load up to the first DAT: it takes the DAT along, or is full of neutral operations. */
  lemma {:induction false} LoadUnsettled(c: Cells, i: nat, d: bool, acc: seq<Op>)
    requires Known(c, i, d) && !Settles(c, i)
    requires |acc| <= MAX_TOKENS && |Payloads(acc)| == 0 && forall op <- acc :: Neutral(op)
    ensures var r := LoadFrom(c, i, d, acc); var n := |acc| + Before(c, i);
      if n < MAX_TOKENS then
        n < |r.ops| && (r.ops[n].Read? || r.ops[n].Write?) && forall op <- r.ops[..n] :: Neutral(op)
      else
        && |r.ops| == MAX_TOKENS && (forall op <- r.ops :: Neutral(op))
        && r.next < Len(c) && r.reading == d && !Settles(c, r.next) && n == MAX_TOKENS + Before(c, r.next)
    decreases MAX_TOKENS - |acc|
  {
    hide Decode, LoadFrom, Payloads, Padding, Parse;
    if |acc| == MAX_TOKENS {
      LoadFull(c, i, d, acc);
    } else {
      LoadOne(c, i, d, acc);
      var op := Decode(c[i], c[i + 1], d).value;
      UnsettledOne(c, i, d);
      if c[i] == TK_DAT {
        var r := LoadFrom(c, i + op.Size(), op.Reading(d), acc + [op]);
        assert acc + [op] <= r.ops;
        assert r.ops[..|acc|] == acc && r.ops[|acc|] == op;
      } else {
        PayloadsSnoc(acc, op);
        LoadUnsettled(c, i + 1, d, acc + [op]);
      }
    }
  }

  lemma UnsettledOne(c: Cells, i: nat, d: bool)
    requires Known(c, i, d) && !Settles(c, i)
    ensures var op := Decode(c[i], c[i + 1], d).value;
      if c[i] == TK_DAT then op.Read? || op.Write?
      else Neutral(op) && op.Size() == 1 && op.Reading(d) == d && !op.Write? && !Settles(c, i + 1)
  {
  }

  /** What all lists together do at the first DAT. */
  lemma {:induction false} HwAt(c: Cells, i: nat, d: bool, hw: bool, a: byte)
    requires Known(c, i, d) && !Settles(c, i)
    ensures forall ch <- Lists(c, i, d) :: Fits(ch.ops)
    ensures var h, n := HwLists(Lists(c, i, d), a, hw).events, Before(c, i); |h| > n && (h[n].ReadByte? <==> hw)
    decreases |c| - i
  {
    hide LoadFrom, Known, Settles, Before, HwFrom, HwLists, Pack, Payloads;
    var ch, n := Load(c, i, d), Before(c, i);
    NoPayload();
    LoadUnsettled(c, i, d, []);
    ListsKnown(c, i, d);
    ListsCons(c, i, d);
    var rest := if ch.next >= Len(c) then [] else Lists(c, ch.next, ch.reading);
    assert forall r <- rest :: r in Lists(c, i, d);
    HwCons(ch, rest, a, hw);
    assert ch.ops[0..|ch.ops|] == ch.ops && (n <= |ch.ops| ==> ch.ops[0..n] == ch.ops[..n]);
    if n < MAX_TOKENS {
      HwNeutral(ch.ops, a, 0, n, hw);
    } else {
      HwNeutral(ch.ops, a, 0, MAX_TOKENS, hw);
      HwAt(c, ch.next, d, hw, a);
    }
  }

  /** Meaning preservation, exactly: when the tokens are known, the hardware performs what the bytes mean
      if and only if wherever a list is full behind an END the next byte is END, there is an END or no payload
      missing, and the directions driver and hardware were left with agree or do not matter.  The driver goes on
      dispatching behind an END, while the hardware stops at one only within a list; it takes the byte behind
      the chain for a missing payload; and it loads a DAT by its own direction, not the hardware's. */
  lemma MeaningPreservedExactly(c: Cells, d: bool, hw: bool, a: byte)
    requires Known(c, 0, d)
    ensures forall ch <- Lists(c, 0, d) :: Fits(ch.ops)
    ensures HwLists(Lists(c, 0, d), a, hw).events == Meaning(Chain(c), a, d) <==>
      && QuietBytes(c, 0, d, 0, 0, false)
      && (HasEnd(Parse(c, 0, d)) || ParseEnd(c, 0, d) == Len(c))
      && (d == hw || Settles(c, 0))
  {
    hide Known, Lists, HwLists, Parse, Meaning, QuietBytes, Settles, Before;
    if d == hw || Settles(c, 0) {
      MeaningPreservedSynced(c, d, hw, a);
    } else {
      HwAt(c, 0, d, hw, a);
      MeaningAt(c, 0, d, a);
      assert c[0..Len(c)] == Chain(c);
    }
  }

  // ---------- Well-formed requests ----------

  /** Lists loaded from a rest that is all END begin with END. */
  lemma {:induction false} EndsAreSilent(c: Cells, i: nat, d: bool)
    requires Known(c, i, d) && forall op <- Parse(c, i, d) :: op.End?
    ensures Silent(Lists(c, i, d))
    decreases |c| - i
  {
    hide LoadFrom, Parse, Padding;
    LoadTakes(c, i, d, []);
    LoadStops(c, i, d, []);
    ListsKnown(c, i, d);
    var ch := Load(c, i, d);
    var rest := Parse(c, ch.next, ch.reading);
    var all := ch.ops + rest;
    assert forall op <- all :: op.End?;
    assert ch.ops[0] == all[0];
    if ch.next < Len(c) {
      assert forall op <- rest :: op in all;
      EndsAreSilent(c, ch.next, ch.reading);
      assert Lists(c, i, d)[1..] == Lists(c, ch.next, ch.reading);
    } else {
      assert Lists(c, i, d)[1..] == [];
    }
  }

  lemma {:induction false} TailEndsAreQuiet(c: Cells, i: nat, d: bool)
    requires Known(c, i, d) && EndsOnlyAtTail(Parse(c, i, d))
    ensures QuietAfterEnd(Lists(c, i, d))
    decreases |c| - i
  {
    hide LoadFrom, Parse, Padding, Silent, QuietAfterEnd;
    var ch := Load(c, i, d);
    LoadTakes(c, i, d, []);
    LoadStops(c, i, d, []);
    if ch.next < Len(c) {
      var p := Parse(c, i, d);
      var rest := Parse(c, ch.next, ch.reading);
      assert p == ch.ops + rest;
      TailSplit(ch.ops, rest);
      QuietCons(ch, Lists(c, ch.next, ch.reading));
      if HasEnd(ch.ops) {
        EndsAreSilent(c, ch.next, ch.reading);
      } else {
        TailEndsAreQuiet(c, ch.next, ch.reading);
      }
    } else {
      assert Lists(c, i, d) == [ch] + [];
      QuietCons(ch, []);
      HwNothing(0, false);
    }
  }

  lemma TailSplit(x: seq<Op>, y: seq<Op>)
    requires EndsOnlyAtTail(x + y)
    ensures EndsOnlyAtTail(y)
    ensures HasEnd(x) ==> forall op <- y :: op.End?
  {
    var p := x + y;
    assert forall k | 0 <= k < |y| :: p[|x| + k] == y[k];
    if HasEnd(x) {
      var k :| 0 <= k < |x| && x[k] == End;
      assert p[k].End?;
    }
  }

  lemma {:induction false} AddressSettles(c: Cells, i: nat)
    requires AddressFirst(c, i)
    ensures Settles(c, i)
    decreases |c| - i
  {
    if i < Len(c) && c[i] != TK_ADDRW && c[i] != TK_ADDRR && c[i] != TK_END {
      AddressSettles(c, i + 1);
    }
  }

  /** Meaning preservation: for every well-formed request, whatever directions driver and hardware were
      left with, the lists together perform exactly what the request means. */
  lemma MeaningPreserved(c: Cells, d: bool, hw: bool, a: byte)
    requires WellFormed(c)
    ensures forall ch <- Lists(c, 0, d) :: Fits(ch.ops)
    ensures HwLists(Lists(c, 0, d), a, hw).events == Meaning(Chain(c), a, false)
  {
    DirectionIrrelevant(c, 0, d, false);
    AddressSettles(c, 0);
    ListsPerformExactly(c, 0, d, hw, a);
    TailEndsAreQuiet(c, 0, d);
    ParseMeaning(c, 0, false, a);
    assert Meaning(Chain(c), a, false) + [] == Meaning(Chain(c), a, false);
    assert c[0..Len(c)] == Chain(c);
  }

  lemma {:induction false} LoadEnds(c: Cells, i: nat)
    requires Len(c) == 17 && i <= 16 && forall k :: 0 <= k < 16 ==> c[k] == TK_END
    ensures Fits(Ends(i)) && LoadFrom(c, i, false, Ends(i)) == Chunk(true, Ends(16), 16, false)
    decreases 16 - i
  {
    NoPayloads(i);
    hide Payloads, LoadFrom;
    LoadStep(c, i, false, Ends(i));
    if i < 16 {
      assert Decode(TK_END, c[i + 1], false) == Some(End);
      assert Ends(i) + [End] == Ends(i + 1);
      LoadEnds(c, i + 1);
    }
  }

  lemma {:induction false} NoPayloads(k: nat)
    ensures Payloads(Ends(k)) == []
  {
    if k > 0 {
      assert Ends(k)[..k - 1] == Ends(k - 1);
      NoPayloads(k - 1);
    }
  }

  lemma {:induction false} KnownEnds(c: Cells, i: nat)
    requires Len(c) == 17 && i <= 16 && (forall k :: 0 <= k < 16 ==> c[k] == TK_END) && c[16] == TK_START
    ensures Known(c, i, false) && ParseEnd(c, i, false) == 17
    decreases 16 - i
  {
    if i < 16 {
      KnownEnds(c, i + 1);
    }
  }

  /** Sixteen END tokens and a START: the chain means nothing, the hardware performs a START condition. */
  lemma EndDoesNotEnd(a: byte)
    ensures var c: Cells := seq(16, _ => TK_END) + [TK_START, 0];
      && (forall ch <- Lists(c, 0, false) :: Fits(ch.ops))
      && Meaning(Chain(c), a, false) == []
      && HwLists(Lists(c, 0, false), a, false).events != []
  {
    hide HwLists;
    var c: Cells := seq(16, _ => TK_END) + [TK_START, 0];
    KnownEnds(c, 0);
    LoadEnds(c, 0);
    assert Ends(0) == [];
    MeaningPreservedExactly(c, false, false, a);
    QuietLists(c, 0, false);
    var rest := Lists(c, 16, false);
    assert Lists(c, 0, false)[0].ops[0] == End;
    assert Lists(c, 0, false)[1..] == rest;
    SecondListStarts(c);
  }

  lemma SecondListStarts(c: Cells)
    requires Len(c) == 17 && c[16] == TK_START
    ensures Load(c, 16, false).ops != [] && Load(c, 16, false).ops[0] == Start
  {
    assert [] + [Start] <= Load(c, 16, false).ops;
  }

  // ---------- What is in the registers ----------

  /** The token bytes of a chain from offset `i` on, payloads left out: a 7 in a write owns the byte behind it. */
  function TokenBytes(c: Cells, i: nat, reading: bool): seq<byte>
    decreases |c| - i
  {
    if i >= Len(c) then [] else
    [c[i]] + TokenBytes(c, if c[i] == 7 && !reading then i + 2 else i + 1,
                        if c[i] == 2 then false else if c[i] == 3 then true else reading)
  }

  /** The payloads of a chain from offset `i` on. */
  function DataBytes(c: Cells, i: nat, reading: bool): seq<byte>
    decreases |c| - i
  {
    if i >= Len(c) then []
    else if c[i] == 7 && !reading then [c[i + 1]] + DataBytes(c, i + 2, reading)
    else DataBytes(c, i + 1, if c[i] == 2 then false else if c[i] == 3 then true else reading)
  }

  /** The list processor's number for a token byte. */
  function Number(t: byte): bv32 {
    if t == 7 then 4 else t as bv32
  }

  lemma NumberOf(tok: byte, next: byte, d: bool)
    requires Decode(tok, next, d).Some?
    ensures var op := Decode(tok, next, d).value;
      && Code(op) == Number(tok) && op.Write? == (tok == 7 && !d) && (op.Write? ==> op.payload == next)
      && op.Reading(d) == (if tok == 2 then false else if tok == 3 then true else d)
  {
  }

  /** The operations a chain parses into are its token bytes, and their payloads its data bytes. */
  lemma {:induction false} ParseBytes(c: Cells, i: nat, d: bool)
    requires Known(c, i, d)
    ensures |Parse(c, i, d)| == |TokenBytes(c, i, d)|
    ensures forall n :: 0 <= n < |Parse(c, i, d)| ==> Code(Parse(c, i, d)[n]) == Number(TokenBytes(c, i, d)[n])
    ensures Payloads(Parse(c, i, d)) == DataBytes(c, i, d)
    decreases |c| - i
  {
    hide Decode, Code, Op.Reading, Number, Payloads;
    if i < Len(c) {
      var op := Decode(c[i], c[i + 1], d).value;
      NumberOf(c[i], c[i + 1], d);
      ParseBytes(c, i + op.Size(), op.Reading(d));
      PayloadsCons(op, Parse(c, i + op.Size(), op.Reading(d)));
    } else {
      NoPayload();
    }
  }

  lemma {:induction false} PayloadsCons(op: Op, ops: seq<Op>)
    ensures Payloads([op] + ops) == (if op.Write? then [op.payload] else []) + Payloads(ops)
    decreases |ops|
  {
    if ops == [] {
      PayloadsSnoc([], op);
      assert [op] + ops == [] + [op];
    } else {
      var t, o := ops[..|ops| - 1], ops[|ops| - 1];
      PayloadsCons(op, t);
      assert [op] + ops == ([op] + t) + [o] && ops == t + [o];
      hide Payloads;
      PayloadsSnoc([op] + t, o);
      PayloadsSnoc(t, o);
    }
  }

  lemma {:induction false} PayloadsConcat(x: seq<Op>, y: seq<Op>)
    ensures Payloads(x + y) == Payloads(x) + Payloads(y)
    decreases |x|
  {
    if x == [] {
      assert x + y == y;
    } else {
      assert x + y == [x[0]] + (x[1..] + y) && x == [x[0]] + x[1..];
      PayloadsConcat(x[1..], y);
      hide Payloads;
      PayloadsCons(x[0], x[1..] + y);
      PayloadsCons(x[0], x[1..]);
    }
  }

  /** What one load leaves in the registers, on the bytes: token `n` is the number of the `n`-th token byte, 0 behind
      the chain and behind the list; data byte `j` is the `j`-th payload, 0 behind the list. */
  lemma RegistersOf(c: Cells, i: nat, d: bool, n: nat, j: nat)
    requires Known(c, i, d) && n < 16 && j < 8
    ensures var ch := Load(c, i, d); var t, p := TokenBytes(c, i, d), DataBytes(c, i, d);
      && Fits(ch.ops) && TokenNo(Pack(ch.ops), n) == (if n < |ch.ops| && n < |t| then Number(t[n]) else 0)
      && |Payloads(ch.ops)| <= |p|
      && DataNo(Pack(ch.ops), j) == (if j < |Payloads(ch.ops)| then p[j] else 0)
  {
    hide LoadFrom, Parse, Padding, Payloads, TokenNo, DataNo, Pack, Number, Code;
    var ch := Load(c, i, d);
    LoadTakes(c, i, d, []);
    ParseBytes(c, i, d);
    PackUnpackTokens(ch.ops, n);
    PackUnpackData(ch.ops, j);
    EndIsZero();
    var p, rest := Parse(c, i, d), Parse(c, ch.next, ch.reading);
    assert [] + p == p;
    PayloadsConcat(ch.ops, rest);
    if ch.next >= Len(c) {
      var e := Ends(Padding(c, i, d, []));
      ParseDone(c, ch.next, ch.reading);
      assert ch.ops + [] == ch.ops;
      PayloadsConcat(p, e);
      NoPayloads(|e|);
      assert n < |p| ==> ch.ops[n] == p[n];
    } else {
      assert ch.ops + rest == p;
      assert n < |ch.ops| ==> ch.ops[n] == p[n];
    }
  }

  lemma EndIsZero()
    ensures Code(End) == 0
  {
  }

  /** The same for every list of a request: list `k` is loaded from where list `k - 1` stopped. */
  lemma {:induction false} ListRegisters(c: Cells, i: nat, d: bool, k: nat, n: nat, j: nat)
    requires Known(c, i, d) && k < |Lists(c, i, d)| && n < 16 && j < 8
    ensures var all := Lists(c, i, d);
      var s, r := if k == 0 then i else all[k - 1].next, if k == 0 then d else all[k - 1].reading;
      var ops := all[k].ops; var t, p := TokenBytes(c, s, r), DataBytes(c, s, r);
      && Fits(ops) && TokenNo(Pack(ops), n) == (if n < |ops| && n < |t| then Number(t[n]) else 0)
      && |Payloads(ops)| <= |p| && DataNo(Pack(ops), j) == (if j < |Payloads(ops)| then p[j] else 0)
    decreases k
  {
    hide LoadFrom, Load, Known, Lists, Payloads, TokenNo, DataNo, Pack, Number, Fits;
    ListsCons(c, i, d);
    var ch := Load(c, i, d);
    if k == 0 {
      RegistersOf(c, i, d, n, j);
    } else {
      assert Lists(c, i, d)[k] == Lists(c, ch.next, ch.reading)[k - 1];
      assert k > 1 ==> Lists(c, i, d)[k - 1] == Lists(c, ch.next, ch.reading)[k - 2];
      ListRegisters(c, ch.next, ch.reading, k - 1, n, j);
    }
  }

  // ---------- Resume offsets and round trip ----------

  lemma {:induction false} ParseReachesTransitive(c: Cells, i: nat, d: bool, j: nat, e: bool, k: nat, f: bool)
    requires ParseReaches(c, i, d, j, e) && ParseReaches(c, j, e, k, f)
    ensures ParseReaches(c, i, d, k, f)
    decreases |c| - i
  {
    hide Decode;
    if !(i == j && d == e) {
      var op := Decode(c[i], c[i + 1], d).value;
      ParseReachesTransitive(c, i + op.Size(), op.Reading(d), j, e, k, f);
    }
  }

  /** Every resume offset lies on a token boundary of the request's parse, with the driver's direction
      equal to the parse's there. */
  lemma {:induction false} ResumeOnBoundaries(c: Cells, i: nat, d: bool)
    requires Known(c, i, d)
    ensures forall ch <- Lists(c, i, d) :: ch.next < Len(c) ==> ParseReaches(c, i, d, ch.next, ch.reading)
    decreases |c| - i
  {
    hide LoadFrom, ParseReaches;
    LoadStops(c, i, d, []);
    var first := Load(c, i, d);
    if first.next < Len(c) {
      ResumeOnBoundaries(c, first.next, first.reading);
      forall ch <- Lists(c, i, d) | ch.next < Len(c)
        ensures ParseReaches(c, i, d, ch.next, ch.reading)
      {
        if ch != first {
          assert ch in Lists(c, first.next, first.reading);
          ParseReachesTransitive(c, i, d, first.next, first.reading, ch.next, ch.reading);
        }
      }
    }
  }

  /** Reads the operations back out of a list's registers, from token `k` and data byte `j` on. */
  function Unload(l: ListRegs, k: nat, j: nat, reading: bool): seq<Op>
    requires k <= MAX_TOKENS && j <= MAX_DATA
    decreases MAX_TOKENS - k
  {
    if k == MAX_TOKENS || j == MAX_DATA then [] else
    var t := TokenNo(l, k);
    if t == OC4_START then [Start] + Unload(l, k + 1, j, reading)
    else if t == OC4_ADDRW then [AddrW] + Unload(l, k + 1, j, false)
    else if t == OC4_ADDRR then [AddrR] + Unload(l, k + 1, j, true)
    else if t == OC4_DATA && reading then [Read] + Unload(l, k + 1, j, reading)
    else if t == OC4_DATA then [Write(DataNo(l, j))] + Unload(l, k + 1, j + 1, reading)
    else if t == OC4_DATA_END then [DataEnd] + Unload(l, k + 1, j, reading)
    else if t == OC4_STOP then [Stop] + Unload(l, k + 1, j, reading)
    else [End] + Unload(l, k + 1, j, reading)
  }

  /** The chain bytes held by successive lists, padding included. */
  function Rebuild(lists: seq<ListRegs>, reading: bool): seq<byte> {
    if lists == [] then [] else
    var ops := Unload(lists[0], 0, 0, reading);
    EncodeAll(ops) + Rebuild(lists[1..], LastDirection(ops, reading))
  }

  /** A list is closed by its eighth data byte: none of its proper prefixes holds eight. */
  predicate Tight(ops: seq<Op>) {
    forall k :: 0 <= k < |ops| ==> |Payloads(ops[..k])| < MAX_DATA
  }

  lemma {:induction false} LoadTight(c: Cells, i: nat, d: bool, acc: seq<Op>)
    requires Fits(acc) && Tight(acc)
    ensures Tight(LoadFrom(c, i, d, acc).ops)
    decreases MAX_TOKENS - |acc|
  {
    hide Decode, Op.Reading, Payloads;
    if |acc| < MAX_TOKENS && |Payloads(acc)| < MAX_DATA {
      if i >= Len(c) {
        PayloadsSnoc(acc, End);
        TightSnoc(acc, End);
        LoadTight(c, i + 1, d, acc + [End]);
      } else {
        var op := Decode(c[i], c[i + 1], d);
        if op.Some? {
          PayloadsSnoc(acc, op.value);
          TightSnoc(acc, op.value);
          LoadTight(c, i + op.value.Size(), op.value.Reading(d), acc + [op.value]);
        }
      }
    }
  }

  lemma TightSnoc(ops: seq<Op>, op: Op)
    requires Tight(ops) && |Payloads(ops)| < MAX_DATA
    ensures Tight(ops + [op])
  {
    hide Payloads;
    assert forall k | 0 <= k <= |ops| :: (ops + [op])[..k] == ops[..k];
    assert ops[..|ops|] == ops;
  }

  lemma UnloadOne(l: ListRegs, op: Op, k: nat, j: nat, reading: bool)
    requires k < MAX_TOKENS && j < MAX_DATA && TokenNo(l, k) == Code(op)
    requires (op.Read? ==> reading) && (op.Write? ==> !reading && DataNo(l, j) == op.payload)
    ensures Unload(l, k, j, reading) ==
      [op] + Unload(l, k + 1, if op.Write? then j + 1 else j, op.Reading(reading))
  {
  }

  /** Unloading undoes packing. */
  lemma {:induction false} UnloadPack(ops: seq<Op>, k: nat, reading: bool)
    requires Fits(ops) && (|ops| == MAX_TOKENS || |Payloads(ops)| == MAX_DATA)
    requires Tight(ops) && k <= |ops| && Directed(ops[k..], reading)
    ensures |Payloads(ops[..k])| <= |Payloads(ops)|
    ensures Unload(Pack(ops), k, |Payloads(ops[..k])|, reading) == ops[k..]
    decreases |ops| - k
  {
    hide Pack, TokenNo, DataNo, Payloads, Code, Op.Reading, Unload;
    PayloadsMonotone(ops, k);
    var j := |Payloads(ops[..k])|;
    if k < |ops| {
      var op := ops[k];
      assert ops[..k] + [op] == ops[..k + 1];
      PayloadsSnoc(ops[..k], op);
      PayloadsMonotone(ops, k + 1);
      assert ops[k..][1..] == ops[k + 1..];
      PackUnpackTokens(ops, k);
      if op.Write? {
        assert Payloads(ops)[j] == op.payload;
        PackUnpackData(ops, j);
      }
      UnloadPack(ops, k + 1, op.Reading(reading));
      UnloadOne(Pack(ops), op, k, j, reading);
    } else {
      assert ops[..k] == ops;
      UnloadEmpty(Pack(ops), k, j, reading);
    }
  }

  lemma UnloadEmpty(l: ListRegs, k: nat, j: nat, reading: bool)
    requires k <= MAX_TOKENS && j <= MAX_DATA && (k == MAX_TOKENS || j == MAX_DATA)
    ensures Unload(l, k, j, reading) == []
  {
  }

  function Packed(chunks: seq<Chunk>): seq<ListRegs>
    requires forall ch <- chunks :: Fits(ch.ops)
  {
    if chunks == [] then [] else [Pack(chunks[0].ops)] + Packed(chunks[1..])
  }

  /** The bytes in the lists are those of the parse, then zeros. */
  lemma {:induction false} RebuildParse(c: Cells, i: nat, d: bool)
    requires i <= Len(c) && Known(c, i, d)
    ensures forall ch <- Lists(c, i, d) :: Fits(ch.ops)
    ensures EncodeAll(Parse(c, i, d)) <= Rebuild(Packed(Lists(c, i, d)), d)
    decreases |c| - i
  {
    hide LoadFrom, Parse, Padding, Pack, Unload, EncodeAll, Rebuild, Packed, Known, LastDirection, Payloads;
    LoadStops(c, i, d, []);
    LoadTakes(c, i, d, []);
    ListsKnown(c, i, d);
    UnloadLoad(c, i, d);
    var ch := Load(c, i, d);
    var p := Parse(c, i, d);
    if ch.next < Len(c) {
      var more := Lists(c, ch.next, ch.reading);
      ListsFit(c, ch.next, ch.reading);
      RebuildParse(c, ch.next, ch.reading);
      RebuildCons(ch, more, d);
      EncodeConcat(ch.ops, Parse(c, ch.next, ch.reading));
      assert p == ch.ops + Parse(c, ch.next, ch.reading);
      PrefixHead(EncodeAll(ch.ops), EncodeAll(Parse(c, ch.next, ch.reading)), Rebuild(Packed(more), ch.reading));
    } else {
      ParseDone(c, ch.next, ch.reading);
      var e := Ends(Padding(c, i, d, []));
      assert ch.ops + [] == ch.ops && [] + p == p;
      EncodeConcat(p, e);
      RebuildCons(ch, [], d);
      assert Lists(c, i, d) == [ch] + [];
    }
  }

  lemma PrefixHead<T>(x: seq<T>, y: seq<T>, z: seq<T>)
    requires y <= z
    ensures x + y <= x + z
  {
  }

  lemma UnloadLoad(c: Cells, i: nat, d: bool)
    requires Load(c, i, d).ok
    ensures var ch := Load(c, i, d);
      Unload(Pack(ch.ops), 0, 0, d) == ch.ops && LastDirection(ch.ops, d) == ch.reading
  {
    hide Pack, Unload;
    LoadTight(c, i, d, []);
    LoadDirected(c, i, d, [], d);
    var ch := Load(c, i, d);
    assert ch.ops[0..] == ch.ops && ch.ops[..0] == [];
    UnloadPack(ch.ops, 0, d);
  }

  lemma RebuildCons(ch: Chunk, rest: seq<Chunk>, d: bool)
    requires Fits(ch.ops) && forall r <- rest :: Fits(r.ops)
    requires Unload(Pack(ch.ops), 0, 0, d) == ch.ops && LastDirection(ch.ops, d) == ch.reading
    ensures forall r <- [ch] + rest :: Fits(r.ops)
    ensures Rebuild(Packed([ch] + rest), d) == EncodeAll(ch.ops) + Rebuild(Packed(rest), ch.reading)
  {
    hide Pack, Unload, EncodeAll;
    assert ([ch] + rest)[1..] == rest;
    assert Packed([ch] + rest)[1..] == Packed(rest);
  }

  /** Round trip: the request is the first n bytes read back from its register loads.  This holds even
      for chains with END inside or a missing last payload. */
  lemma RoundTrip(c: Cells, d: bool)
    requires Known(c, 0, d)
    ensures forall ch <- Lists(c, 0, d) :: Fits(ch.ops)
    ensures Chain(c) <= Rebuild(Packed(Lists(c, 0, d)), d)
  {
    hide Lists, Parse, Rebuild, EncodeAll, Packed;
    RebuildParse(c, 0, d);
    ParseEncode(c, 0, d);
    assert Chain(c) <= c[0..ParseEnd(c, 0, d)];
  }
}
