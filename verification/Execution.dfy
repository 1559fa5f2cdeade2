/**
 What the hardware does over whole runs: the events of a finished request are what the request means,
 those of a failed one the beginning of it, and the address sent is the address asked for exactly when
 no earlier request left its top bit behind.
 */
module Execution {
  import opened Tokens
  import opened Registers
  import opened Loader
  import opened Memory
  import opened BusModel
  import opened BusRuns
  import opened Conservation
  import opened Ordering
  import opened Behind

  /** A request chain the server would accept. */
  predicate RequestOk(data: seq<byte>) {
    WellFormed(data + [0])
  }

  /** The lists of a request, for the direction the driver starts with. */
  function AllLists(data: seq<byte>, reading: bool): seq<Chunk> {
    Lists(data + [0], 0, reading)
  }

  /** All tokens of a chain are known, whatever byte is behind it. */
  predicate KnownChain(data: seq<byte>, d: bool) {
    Known(data + [0], 0, d)
  }

  // ---------- The k-th list ----------

  lemma HwFirst(chunks: seq<Chunk>, a: byte, hw: bool)
    requires chunks != [] && forall ch <- chunks :: Fits(ch.ops)
    ensures forall ch <- chunks[1..] :: Fits(ch.ops)
    ensures var p := HwList(Pack(chunks[0].ops), a, hw); var q := HwLists(chunks[1..], a, p.reading);
      HwLists(chunks, a, hw) == Performed(p.events + q.events, q.reading)
  {
    hide HwList, Pack, Fits;
  }

  lemma Regroup<T>(x: seq<T>, y: seq<T>, z: seq<T>)
    ensures (x + y) + z == x + (y + z)
  {
  }

  lemma {:induction false} HwSnoc(chunks: seq<Chunk>, k: nat, a: byte, hw: bool)
    requires k < |chunks| && forall ch <- chunks :: Fits(ch.ops)
    ensures forall ch <- chunks[..k] :: Fits(ch.ops)
    ensures forall ch <- chunks[..k + 1] :: Fits(ch.ops)
    ensures var p := HwLists(chunks[..k], a, hw); var q := HwList(Pack(chunks[k].ops), a, p.reading);
      HwLists(chunks[..k + 1], a, hw) == Performed(p.events + q.events, q.reading)
    decreases k
  {
    hide HwList, Pack, Fits, HwLists;
    HwFirst(chunks[..k + 1], a, hw);
    if k > 0 {
      var first := HwList(Pack(chunks[0].ops), a, hw);
      HwSnoc(chunks[1..], k - 1, a, first.reading);
      HwFirst(chunks[..k], a, hw);
      assert chunks[..k][1..] == chunks[1..][..k - 1];
      assert chunks[..k + 1][1..] == chunks[1..][..k];
      var p := HwLists(chunks[1..][..k - 1], a, first.reading);
      Regroup(first.events, p.events, HwList(Pack(chunks[k].ops), a, p.reading).events);
    } else {
      assert chunks[..1][1..] == [] && chunks[..0] == [];
      HwNone(a, hw);
      HwNone(a, HwList(Pack(chunks[0].ops), a, hw).reading);
      var q := HwList(Pack(chunks[0].ops), a, hw);
      assert [] + q.events == q.events + [] == q.events;
    }
  }

  lemma HwNone(a: byte, hw: bool)
    ensures HwLists([], a, hw) == Performed([], hw)
  {
  }

  /** What the first lists perform is the beginning of what all perform. */
  lemma {:induction false} HwPrefix(chunks: seq<Chunk>, k: nat, a: byte, hw: bool)
    requires k <= |chunks| && forall ch <- chunks :: Fits(ch.ops)
    ensures HwLists(chunks[..k], a, hw).events <= HwLists(chunks, a, hw).events
    decreases |chunks| - k
  {
    hide HwList, HwLists;
    if k < |chunks| {
      HwSnoc(chunks, k, a, hw);
      HwPrefix(chunks, k + 1, a, hw);
    } else {
      assert chunks[..k] == chunks;
    }
  }

  // ---------- How much lists can do ----------

  /** How many events lists hold. */
  function Planned(chunks: seq<Chunk>, a: byte): nat {
    if chunks == [] then 0 else |Events(chunks[0].ops, a)| + Planned(chunks[1..], a)
  }

  lemma {:induction false} PlannedSnoc(chunks: seq<Chunk>, k: nat, a: byte)
    requires k < |chunks|
    ensures Planned(chunks[..k + 1], a) == Planned(chunks[..k], a) + |Events(chunks[k].ops, a)|
  {
    hide Events;
    if k > 0 {
      PlannedSnoc(chunks[1..], k - 1, a);
      assert chunks[..k][1..] == chunks[1..][..k - 1];
      assert chunks[..k + 1][1..] == chunks[1..][..k];
    } else {
      assert chunks[..1][1..] == [] && chunks[..0] == [];
    }
  }

  lemma EventsOne(ops: seq<Op>, k: nat, a: byte)
    requires k <= |ops|
    ensures |Events(ops[k..], a)| ==
      if k == |ops| || ops[k].End? then 0 else 1 + |Events(ops[k + 1..], a)|
  {
    if k < |ops| {
      assert ops[k..][1..] == ops[k + 1..];
    }
  }

  /** The list processor performs at most the events of a list, whatever its direction. */
  lemma {:induction false} HwAtMost(ops: seq<Op>, a: byte, k: nat, j: nat, hw: bool)
    requires Fits(ops) && k <= |ops|
    ensures |HwFrom(Pack(ops), a, k, j, hw).events| <= |Events(ops[k..], a)|
    decreases |ops| - k
  {
    hide Pack, TokenNo, DataNo, Events;
    EventsOne(ops, k, a);
    if k < MAX_TOKENS {
      PackUnpackTokens(ops, k);
    }
    if k < |ops| && !ops[k].End? {
      HwAtMost(ops, a, k + 1, j, false);
      HwAtMost(ops, a, k + 1, j, true);
      HwAtMost(ops, a, k + 1, j + 1, false);
    }
  }

  lemma ListAtMost(ops: seq<Op>, a: byte, hw: bool)
    requires Fits(ops)
    ensures |HwList(Pack(ops), a, hw).events| <= |Events(ops, a)|
  {
    hide Pack, HwFrom, Events;
    HwAtMost(ops, a, 0, 0, hw);
    assert ops[0..] == ops;
  }

  lemma {:induction false} ListsAtMost(chunks: seq<Chunk>, a: byte, hw: bool)
    requires forall ch <- chunks :: Fits(ch.ops)
    ensures |HwLists(chunks, a, hw).events| <= Planned(chunks, a)
  {
    hide Pack, HwList, Events;
    if chunks != [] {
      ListAtMost(chunks[0].ops, a, hw);
      ListsAtMost(chunks[1..], a, HwList(Pack(chunks[0].ops), a, hw).reading);
    }
  }

  lemma {:induction false} SilentPlanned(chunks: seq<Chunk>, a: byte)
    requires Silent(chunks)
    ensures Planned(chunks, a) == 0
  {
    if chunks != [] {
      SilentPlanned(chunks[1..], a);
    }
  }

  lemma PlannedCons(ch: Chunk, rest: seq<Chunk>, a: byte)
    ensures Planned([ch] + rest, a) == |Events(ch.ops, a)| + Planned(rest, a)
  {
    assert ([ch] + rest)[1..] == rest;
  }

  /** When END comes at the tail only, the lists hold as many events as the chain means. */
  lemma {:induction false} PlannedMeaning(c: Cells, i: nat, d: bool, a: byte)
    requires Known(c, i, d) && EndsOnlyAtTail(Parse(c, i, d))
    ensures Planned(Lists(c, i, d), a) == |Events(Parse(c, i, d), a)|
    decreases |c| - i
  {
    hide LoadFrom, Parse, Known, Events, Silent, Padding;
    var ch := Load(c, i, d);
    ListsCons(c, i, d);
    LoadTakes(c, i, d, []);
    if ch.next >= Len(c) {
      LastList(c, i, d, a);
      PlannedCons(ch, [], a);
    } else {
      var rest := Parse(c, ch.next, ch.reading);
      assert ch.ops + rest == Parse(c, i, d);
      InnerList(c, i, d, a);
      PlannedCons(ch, Lists(c, ch.next, ch.reading), a);
      TailSplit(ch.ops, rest);
      if HasEnd(ch.ops) {
        EndsAreSilent(c, ch.next, ch.reading);
        SilentPlanned(Lists(c, ch.next, ch.reading), a);
      } else {
        PlannedMeaning(c, ch.next, ch.reading, a);
      }
    }
  }

  // ---------- The invariant ----------

  /** Bit 7 of the address register after these requests. */
  predicate TopAfter(top: bool, done: seq<Done>) {
    top || exists j :: 0 <= j < |done| && done[j].req.target >= 0x40
  }

  /** The address the hardware sends for `target` when the register's bit 7 is `top`. */
  function Sent(top: bool, target: byte): byte {
    if top then target | 0x40 else target
  }

  /** What lists have done: all they hold, or less, once one of them was cut short. */
  predicate Worked(done: Performed, cut: bool, chunks: seq<Chunk>, a: byte, hw0: bool)
    requires forall ch <- chunks :: Fits(ch.ops)
  {
    if cut then |done.events| < Planned(chunks, a) else done == HwLists(chunks, a, hw0)
  }

  /** The registers hold this list of a chain of `n` bytes, and the driver stands behind it. */
  predicate Loads(b: Bus, ch: Chunk, n: nat)
    requires Fits(ch.ops)
  {
    && b.lists == Pack(ch.ops) && b.st.reading == ch.reading && b.st.reqLen == n
    && b.st.remaining == if n > ch.next then n - ch.next else 0
  }

  /** A started bus holds list number `completed` of its request, `x` being behind the chain, and the lists
      before it have been worked on. */
  predicate HoldsWith(w: World, data: seq<byte>, x: byte) {
    var all := Lists(data + [x], 0, w.past.reading0);
    var k := w.past.completed;
    && k < |all|
    && (forall ch <- all :: Fits(ch.ops))
    && Loads(w.bus, all[k], |data|)
    && Worked(Performed(w.past.events, w.hw), w.past.cut, all[..k], AddressField(w.bus.addr), w.past.hw0)
  }

  ghost predicate Holds(w: World, data: seq<byte>) {
    exists x :: HoldsWith(w, data, x)
  }

  ghost predicate Executing(w: World)
    requires Shaped(w)
  {
    w.bus.started ==>
      |Current(w.bus)| == 1 &&
      (KnownChain(Current(w.bus)[0].data, w.past.reading0) ==> Holds(w, Current(w.bus)[0].data))
  }

  /** What a finished request did on the bus, `x` being behind its chain: all its lists, a beginning of them if
      it failed, or less than they hold if one of them was cut short. */
  predicate DoneWith(e: Done, x: byte) {
    var all := Lists(e.req.data + [x], 0, e.reading);
    && (forall ch <- all :: Fits(ch.ops))
    && if e.cut then e.Failed() || |e.events| < Planned(all, e.sent)
       else
         var h := HwLists(all, e.sent, e.hw).events;
         if e.Failed() then e.events <= h else e.events == h
  }

  ghost predicate DoneOk(e: Done) {
    KnownChain(e.req.data, e.reading) ==> exists x :: DoneWith(e, x)
  }

  predicate Addressing(w: World)
    requires Shaped(w)
  {
    && (!Busy(w.bus) ==> TopBit(w.bus.addr) == TopAfter(w.top, w.past.done))
    && (w.bus.started ==>
          |Current(w.bus)| == 1 &&
          var t := Current(w.bus)[0].target; var top := TopAfter(w.top, w.past.done);
          t <= 0x7F && TopBit(w.bus.addr) == (top || t >= 0x40) && AddressField(w.bus.addr) == Sent(top, t))
  }

  /** The address sent for every finished request. */
  predicate SentOk(top: bool, done: seq<Done>) {
    forall k :: 0 <= k < |done| ==>
      done[k].req.target <= 0x7F && done[k].sent == Sent(TopAfter(top, done[..k]), done[k].req.target)
  }

  ghost predicate Executed(w: World)
    requires Shaped(w)
  {
    && Executing(w)
    && Addressing(w)
    && (forall e <- w.past.done :: DoneOk(e))
    && SentOk(w.top, w.past.done)
  }

  // ---------- Loading a list ----------

  /** The chain and target in memory are those of the current request. */
  lemma CellsOf(b: Bus)
    requires Shape(b) && Busy(b)
    ensures |Current(b)| == 1
    ensures |CurrentCells(b)| == b.st.reqLen + 1 && |Current(b)[0].data| == b.st.reqLen
    ensures CurrentCells(b) == Current(b)[0].data + [CurrentCells(b)[b.st.reqLen]]
    ensures CurrentTarget(b) == Current(b)[0].target
  {
    var o := b.st.currentReq - b.origin;
    InRegion(b.base, b.st.currentReq);
    SliceSlice(b.mem, o, BUF_SZ, b.st.reqLen + 2);
    assert Buffer(b.mem, o)[1] == b.mem[o + 1];
  }

  lemma SliceSlice<T>(s: seq<T>, o: nat, n: nat, m: nat)
    requires 2 <= m <= n && o + n <= |s|
    ensures s[o..o + n][2..m] == s[o + 2..o + m]
  {
    var x, y := s[o..o + n][2..m], s[o + 2..o + m];
    assert forall i | 0 <= i < m - 2 :: x[i] == s[o..o + n][2 + i] == s[o + 2 + i] == y[i];
  }

  /** A load that starts the hardware put the next list of the chain into the registers. */
  lemma LoadResult(b: Bus)
    requires Shape(b) && Busy(b) && !b.started && LoadTokens(b).bus.started
    ensures var r := LoadTokens(b).bus; var ch := Load(CurrentCells(b), b.st.reqLen - b.st.remaining, b.st.reading);
      && CurrentTarget(b) <= 0x7F
      && r.addr == LoadAddress(b.addr, CurrentTarget(b)) && r.lists == Pack(ch.ops) && ch.ok
      && r.st.reading == ch.reading
      && r.st.remaining == if b.st.reqLen > ch.next then b.st.reqLen - ch.next else 0
  {
    hide LoadFrom, Pack, LoadAddress;
  }

  lemma RequestParse(data: seq<byte>, d: bool)
    requires RequestOk(data)
    ensures KnownChain(data, d) && ParseEnd(data + [0], 0, d) == |data|
  {
    DirectionIrrelevant(data + [0], 0, d, false);
  }

  lemma KnownFits(data: seq<byte>, x: byte, d: bool)
    requires KnownChain(data, d)
    ensures Known(data + [x], 0, d) && forall ch <- Lists(data + [x], 0, d) :: Fits(ch.ops)
  {
    hide Lists, Known;
    KnownAlike(data, 0, x, 0, d);
    ListsKnown(data + [x], 0, d);
  }

  // ---------- Starting a request ----------

  lemma StartHolds(w: World, a: Bus, data: seq<byte>)
    requires Shape(a) && Busy(a) && !a.started && a.st.remaining == a.st.reqLen
    requires LoadTokens(a).bus.started && |Current(a)| == 1 && Current(a)[0].data == data
    requires KnownChain(data, a.st.reading)
    ensures Holds(Started(w.(bus := LoadTokens(a).bus), a.st.reading), data)
  {
    hide LoadFrom, Pack, LoadAddress, AddressField, HwList, LoadTokens, Known, Shape, Current;
    LoadResult(a);
    LoadKeeps(a);
    CellsOf(a);
    var x := CurrentCells(a)[a.st.reqLen];
    KnownFits(data, x, a.st.reading);
    var all := Lists(data + [x], 0, a.st.reading);
    assert all[..0] == [];
    assert HoldsWith(Started(w.(bus := LoadTokens(a).bus), a.st.reading), data, x);
  }

  /** Loading for the first time sends the address with the top bit left by earlier requests; loading for
      a later list changes nothing. */
  lemma AddressAfterLoad(reg: bv32, top: bool, t: byte)
    requires t <= 0x7F
    requires TopBit(reg) == top || (TopBit(reg) == (top || t >= 0x40))
    ensures TopBit(LoadAddress(reg, t)) == (top || t >= 0x40)
    ensures AddressField(LoadAddress(reg, t)) == Sent(top, t)
  {
    hide TopBit, LoadAddress, AddressField;
    TopBitSticks(reg, t);
    AddressLoaded(reg, t);
    AddressCollision(t);
  }

  /** A request that has just been accepted and loaded. */
  lemma FirstLoad(u: World, a: Bus)
    requires Shape(a) && Busy(a) && !a.started && a.st.remaining == a.st.reqLen
    requires TopBit(a.addr) == TopAfter(u.top, u.past.done)
    requires (u.taking.Taking? ==> InReq(a.base, u.taking.buf) && |u.taking.req.data| <= BUF_SZ - 2)
    requires u.held != 0 ==> InRet(a.base, u.held)
    ensures Shaped(Started(u.(bus := LoadTokens(a).bus), a.st.reading))
    ensures Executing(Started(u.(bus := LoadTokens(a).bus), a.st.reading))
    ensures Addressing(Started(u.(bus := LoadTokens(a).bus), a.st.reading))
  {
    hide LoadTokens, Holds, AddressField, TopBit, LoadAddress, KnownChain, DoneOk, TopAfter, Load, Sent, Shape,
         Current, InPool;
    var b := LoadTokens(a).bus;
    LoadKeeps(a);
    LoadShape(a);
    CellsOf(a);
    CurrentKept(a, b);
    var r := Current(a)[0];
    if b.started {
      LoadResult(a);
      AddressAfterLoad(a.addr, TopAfter(u.top, u.past.done), r.target);
      if KnownChain(r.data, a.st.reading) {
        StartHolds(u, a, r.data);
      }
    }
  }

  /** Taking up the next request keeps the invariant. */
  lemma StartExecuted(u: World, b: Bus)
    requires Shaped(u) && Executed(u) && !Busy(u.bus) && b == CheckBuf(u.bus).bus && CheckBuf(u.bus).Ok?
    ensures Shaped(Started(u.(bus := b), u.bus.st.reading))
    ensures Executed(Started(u.(bus := b), u.bus.st.reading))
  {
    if u.bus.rings.reqUsed != [] {
      var a := Accept(u.bus);
      AcceptState(u.bus);
      AcceptKeepsBase(u.bus);
      hide LoadTokens, Holds, AddressField, TopBit, KnownChain, DoneOk, TopAfter, Sent, Shape, Accept,
           Current, InPool, Executing, Addressing;
      NotStarted(u);
      FirstLoad(u, a);
    } else {
      hide Holds, AddressField, TopBit, KnownChain, DoneOk, TopAfter, Sent;
      CheckBufShape(u.bus);
    }
  }

  lemma NotStarted(u: World)
    requires Shaped(u) && Executed(u) && !Busy(u.bus)
    ensures !u.bus.started && TopBit(u.bus.addr) == TopAfter(u.top, u.past.done)
  {
  }

  lemma AcceptState(b: Bus)
    requires Shape(b) && !Busy(b) && b.rings.reqUsed != [] && b.rings.retFree != []
    ensures var a := Accept(b);
      Shape(a) && Busy(a) && !a.started && a.st.remaining == a.st.reqLen && a.st.reading == b.st.reading
        && a.addr == b.addr
  {
    AcceptShape(b);
    hide Store;
  }

  // ---------- Going on with a request ----------

  /** The interrupt of a list that did not fail: it has been worked on. */
  lemma OneWorked(w: World, all: seq<Chunk>, k: nat, ctl: bv32, timeout: bool, performed: nat, hw: bool)
    requires k < |all| && (forall ch <- all :: Fits(ch.ops)) && w.bus.lists == Pack(all[k].ops) && !Failed(ctl)
    requires forall ch <- all[..k] :: Fits(ch.ops)
    requires Worked(Performed(w.past.events, w.hw), w.past.cut, all[..k], AddressField(w.bus.addr), w.past.hw0)
    ensures forall ch <- all[..k + 1] :: Fits(ch.ops)
    ensures var p := Hardware(w, ctl, timeout, performed, hw);
      Worked(Performed(w.past.events + p.events, p.reading), w.past.cut || p.cut, all[..k + 1],
        AddressField(w.bus.addr), w.past.hw0)
  {
    hide Pack, AddressField, HwList, HwLists, Planned, Events, Failed;
    var a := AddressField(w.bus.addr);
    HwSnoc(all, k, a, w.past.hw0);
    PlannedSnoc(all, k, a);
    ListAtMost(all[k].ops, a, w.hw);
    ListsAtMost(all[..k], a, w.past.hw0);
  }

  /** Where the driver stands. */
  lemma HeldList(w: World, data: seq<byte>, x: byte)
    requires HoldsWith(w, data, x)
    ensures var all, k := Lists(data + [x], 0, w.past.reading0), w.past.completed;
      && k < |all| && w.bus.st.reading == all[k].reading && w.bus.st.reqLen == |data|
      && w.bus.st.remaining == if |data| > all[k].next then |data| - all[k].next else 0
  {
    hide Pack, Lists, Worked, Fits;
  }

  /** The registers hold list `k` of `t`, which begins as `s` does. */
  predicate Followed(s: seq<Chunk>, t: seq<Chunk>, k: nat, b: Bus, n: nat) {
    && k <= |s| && k < |t| && t[..k] == s[..k] && (forall ch <- t :: Fits(ch.ops))
    && Loads(b, t[k], n)
  }

  /** The next list is the one that follows, whatever byte is behind the chain now. */
  lemma NextLoaded(w: World, a: Bus, b: Bus, data: seq<byte>, x: byte, y: byte)
    requires KnownChain(data, w.past.reading0) && HoldsWith(w, data, x) && w.bus.st.remaining > 0
    requires Shape(a) && Busy(a) && a.st == w.bus.st && !a.started && b == LoadTokens(a).bus && b.started
    requires CurrentCells(a) == data + [y]
    ensures Followed(Lists(data + [x], 0, w.past.reading0), Lists(data + [y], 0, w.past.reading0),
      w.past.completed + 1, b, |data|)
  {
    hide Pack, LoadTokens, Known, Shape, Current, Lists, Load, HoldsWith, Fits;
    LoadResult(a);
    LoadKeeps(a);
    KnownFits(data, x, w.past.reading0);
    HeldList(w, data, x);
    KnownFits(data, y, w.past.reading0);
    ListsBefore(data, x, y, 0, w.past.reading0, w.past.completed);
  }

  /** One more list is completed. */
  lemma NextHolds(w: World, a: Bus, data: seq<byte>, ctl: bv32, timeout: bool, performed: nat, hw: bool)
    requires Shaped(w) && w.bus.started && KnownChain(data, w.past.reading0) && Holds(w, data)
    requires !EndsRequest(w.bus, ctl)
    requires Shape(a) && Busy(a) && a.st == w.bus.st && !a.started
    requires |Current(a)| == 1 && Current(a)[0].data == data && LoadTokens(a).bus.started
    requires AddressField(LoadTokens(a).bus.addr) == AddressField(w.bus.addr)
    ensures var p := Hardware(w, ctl, timeout, performed, hw);
      Holds(w.(bus := LoadTokens(a).bus, hw := p.reading,
               past := w.past.(completed := w.past.completed + 1, events := w.past.events + p.events,
                               cut := w.past.cut || p.cut)), data)
  {
    hide Pack, AddressField, LoadTokens, Known, Shape, Current, Lists, Worked, Hardware, Failed, CurrentCells, Fits;
    MoreLeft(w, a, ctl);
    var x :| HoldsWith(w, data, x);
    CellsOf(a);
    var y := CurrentCells(a)[a.st.reqLen];
    hide Loads, HoldsWith;
    NextLoaded(w, a, LoadTokens(a).bus, data, x, y);
    OneHeld(w, LoadTokens(a).bus, data, x, y, ctl, timeout, performed, hw);
  }

  /** With the next list loaded, the one before it has been worked on. */
  lemma OneHeld(w: World, b: Bus, data: seq<byte>, x: byte, y: byte, ctl: bv32, timeout: bool, performed: nat, hw: bool)
    requires HoldsWith(w, data, x) && !Failed(ctl) && AddressField(b.addr) == AddressField(w.bus.addr)
    requires var s, t := Lists(data + [x], 0, w.past.reading0), Lists(data + [y], 0, w.past.reading0);
      var k := w.past.completed + 1;
      k < |t| && t[..k] == s[..k] && (forall ch <- t :: Fits(ch.ops)) && Loads(b, t[k], |data|)
    ensures var p := Hardware(w, ctl, timeout, performed, hw);
      Holds(w.(bus := b, hw := p.reading,
               past := w.past.(completed := w.past.completed + 1, events := w.past.events + p.events,
                               cut := w.past.cut || p.cut)), data)
  {
    hide Pack, AddressField, Lists, Worked, Hardware, Failed, Fits;
    OneWorked(w, Lists(data + [x], 0, w.past.reading0), w.past.completed, ctl, timeout, performed, hw);
    hide Loads;
    var p := Hardware(w, ctl, timeout, performed, hw);
    assert HoldsWith(w.(bus := b, hw := p.reading,
               past := w.past.(completed := w.past.completed + 1, events := w.past.events + p.events,
                               cut := w.past.cut || p.cut)), data, y);
  }

  lemma MoreLeft(w: World, a: Bus, ctl: bv32)
    requires Shaped(w) && a.st == w.bus.st && !EndsRequest(w.bus, ctl)
    ensures a.st.remaining > 0 && !Failed(ctl)
  {
    hide Failed;
  }

  lemma ContinueExecuted(w: World, ctl: bv32, timeout: bool, performed: nat, hw: bool)
    requires Shaped(w) && Executed(w) && w.bus.started && Busy(w.bus) && !EndsRequest(w.bus, ctl)
    requires Shape(Report(w.bus, ctl, timeout)) && Busy(Report(w.bus, ctl, timeout))
    requires Shaped(GoneOn(w, ctl, timeout, performed, hw))
    ensures Executed(GoneOn(w, ctl, timeout, performed, hw))
  {
    hide LoadTokens, Holds, AddressField, TopBit, LoadAddress, KnownChain, DoneOk, TopAfter, Load, Sent, Shape,
         Current, Report, Failed, SentOk, Hardware;
    var a := Report(w.bus, ctl, timeout);
    var b := LoadTokens(a).bus;
    ReportKeeps(w.bus, ctl, timeout);
    ReportAddr(w.bus, ctl, timeout);
    CurrentReported(w.bus, ctl, timeout);
    LoadKeeps(a);
    CellsOf(a);
    CurrentKept(a, b);
    var r := Current(a)[0];
    if b.started {
      LoadResult(a);
      AddressAfterLoad(a.addr, TopAfter(w.top, w.past.done), r.target);
      if KnownChain(r.data, w.past.reading0) {
        NextHolds(w, a, r.data, ctl, timeout, performed, hw);
      }
    }
  }

  lemma ReportAddr(b: Bus, ctl: bv32, timeout: bool)
    requires Shape(b) && Busy(b)
    ensures Report(b, ctl, timeout).addr == b.addr
  {
  }

  /** The record after an interrupt that does not end the request. */
  function GoneOn(w: World, ctl: bv32, timeout: bool, performed: nat, hw: bool): World
    requires Shape(w.bus) && Busy(w.bus)
    requires Shape(Report(w.bus, ctl, timeout)) && Busy(Report(w.bus, ctl, timeout))
  {
    var p := Hardware(w, ctl, timeout, performed, hw);
    w.(bus := LoadTokens(Report(w.bus, ctl, timeout)).bus, hw := p.reading,
       past := w.past.(completed := w.past.completed + 1, events := w.past.events + p.events,
                       cut := w.past.cut || p.cut))
  }

  // ---------- Finishing a request ----------

  /** The record of a request that ends now. */
  function Ending(w: World, r: Request, ctl: bv32, timeout: bool, p: Work): Done {
    Done(r, ctl, timeout, AddressField(w.bus.addr), w.past.events + p.events, w.past.reading0, w.past.hw0,
      w.past.cut || p.cut)
  }

  lemma FinishEvents(w: World, r: Request, ctl: bv32, timeout: bool, performed: nat, hw: bool)
    requires Shaped(w) && w.bus.started && KnownChain(r.data, w.past.reading0) && Holds(w, r.data)
    requires EndsRequest(w.bus, ctl)
    ensures DoneOk(Ending(w, r, ctl, timeout, Hardware(w, ctl, timeout, performed, hw)))
  {
    hide Pack, AddressField, HwList, Known, Shape, HwLists, Lists, Failed, Worked, Planned, KnownChain;
    var x :| HoldsWith(w, r.data, x);
    var d, k, a := w.past.reading0, w.past.completed, AddressField(w.bus.addr);
    var all := Lists(r.data + [x], 0, d);
    KnownFits(r.data, x, d);
    var e := Ending(w, r, ctl, timeout, Hardware(w, ctl, timeout, performed, hw));
    DoneFailed(e);
    if Failed(ctl) {
      FailedPrefix(w, all, k, performed);
    } else {
      OneWorked(w, all, k, ctl, timeout, performed, hw);
      LastOne(r.data + [x], 0, d, k);
      assert all[..k + 1] == all;
      WorkedAll(w, all, ctl, Hardware(w, ctl, timeout, performed, hw));
    }
    assert DoneWith(e, x);
  }

  lemma WorkedAll(w: World, all: seq<Chunk>, ctl: bv32, p: Work)
    requires forall ch <- all :: Fits(ch.ops)
    requires Worked(Performed(w.past.events + p.events, p.reading), w.past.cut || p.cut, all,
      AddressField(w.bus.addr), w.past.hw0)
    ensures if w.past.cut || p.cut then |w.past.events + p.events| < Planned(all, AddressField(w.bus.addr))
      else w.past.events + p.events == HwLists(all, AddressField(w.bus.addr), w.past.hw0).events
  {
    hide HwLists, Planned, AddressField;
  }

  /** The list that uses up the chain is the last one. */
  lemma {:induction false} LastOne(c: Cells, i: nat, d: bool, k: nat)
    requires Known(c, i, d) && k < |Lists(c, i, d)| && Lists(c, i, d)[k].next >= Len(c)
    ensures k + 1 == |Lists(c, i, d)|
    decreases k
  {
    hide LoadFrom, Load, Known, Lists;
    ListsCons(c, i, d);
    var ch := Load(c, i, d);
    if k > 0 {
      assert Lists(c, i, d)[k] == Lists(c, ch.next, ch.reading)[k - 1];
      LastOne(c, ch.next, ch.reading, k - 1);
    }
  }

  /** A failed list has performed a beginning of what is left. */
  lemma FailedPrefix(w: World, all: seq<Chunk>, k: nat, performed: nat)
    requires k < |all| && (forall ch <- all :: Fits(ch.ops)) && w.bus.lists == Pack(all[k].ops)
    requires forall ch <- all[..k] :: Fits(ch.ops)
    requires Worked(Performed(w.past.events, w.hw), w.past.cut, all[..k], AddressField(w.bus.addr), w.past.hw0)
    ensures var list := HwList(w.bus.lists, AddressField(w.bus.addr), w.hw).events;
      !w.past.cut ==>
        w.past.events + list[..if performed < |list| then performed else |list|] <=
        HwLists(all, AddressField(w.bus.addr), w.past.hw0).events
  {
    hide Pack, AddressField, HwList, HwLists, Planned;
    var a := AddressField(w.bus.addr);
    if !w.past.cut {
      HwSnoc(all, k, a, w.past.hw0);
      HwPrefix(all, k + 1, a, w.past.hw0);
      var list := HwList(w.bus.lists, a, w.hw).events;
      PrefixOfPrefix(w.past.events, list, if performed < |list| then performed else |list|,
        HwLists(all, a, w.past.hw0).events);
    }
  }

  lemma PrefixOfPrefix<T>(x: seq<T>, y: seq<T>, n: nat, z: seq<T>)
    requires x + y <= z && n <= |y|
    ensures x + y[..n] <= z
  {
    assert (x + y)[..|x| + n] == x + y[..n];
  }

  lemma SentSnoc(top: bool, done: seq<Done>, e: Done)
    requires SentOk(top, done) && e.req.target <= 0x7F && e.sent == Sent(TopAfter(top, done), e.req.target)
    ensures SentOk(top, done + [e])
    ensures TopAfter(top, done + [e]) == (TopAfter(top, done) || e.req.target >= 0x40)
  {
    hide Sent;
    var d := done + [e];
    assert d[..|done|] == done;
    assert forall k | 0 <= k < |done| :: d[..k] == done[..k] && d[k] == done[k];
    if TopAfter(top, done) && !top {
      var j :| 0 <= j < |done| && done[j].req.target >= 0x40;
      assert d[j].req.target >= 0x40;
    }
    if e.req.target >= 0x40 {
      assert d[|done|].req.target >= 0x40;
    }
  }

  /** The state after a request has been returned, with what it did recorded. */
  lemma FinishExecuted(w: World, ctl: bv32, timeout: bool, performed: nat, hw: bool, u: World)
    requires Shaped(w) && Executed(w) && w.bus.started && Busy(w.bus) && EndsRequest(w.bus, ctl)
      && |Current(w.bus)| == 1
    requires Shaped(u) && u.top == w.top && !Busy(u.bus) && u.bus.addr == w.bus.addr
    requires u.past.done ==
      w.past.done + [Ending(w, Current(w.bus)[0], ctl, timeout, Hardware(w, ctl, timeout, performed, hw))]
    ensures Executed(u)
  {
    hide Holds, AddressField, TopBit, KnownChain, TopAfter, Sent, Hardware, Failed, SentOk, DoneWith, Current;
    var e := u.past.done[|w.past.done|];
    IdleStopped(u.bus);
    if KnownChain(e.req.data, e.reading) {
      FinishEvents(w, e.req, ctl, timeout, performed, hw);
    }
    SentSnoc(w.top, w.past.done, e);
  }

  lemma IdleStopped(b: Bus)
    requires Shape(b) && !Busy(b)
    ensures !b.started
  {
  }

  // ---------- All steps ----------

  lemma SameHolds(w: World, v: World, data: seq<byte>)
    requires Holds(w, data) && v.bus.addr == w.bus.addr && v.bus.lists == w.bus.lists && v.hw == w.hw
    requires v.bus.st == w.bus.st.(notified := v.bus.st.notified)
    requires v.past == w.past.(submitted := v.past.submitted, collected := v.past.collected)
    ensures Holds(v, data)
  {
    hide AddressField, Lists, Worked, Fits, Loads;
    var x :| HoldsWith(w, data, x);
    SameLoads(w.bus, v.bus, Lists(data + [x], 0, w.past.reading0)[w.past.completed], |data|);
    assert HoldsWith(v, data, x);
  }

  lemma SameLoads(b: Bus, c: Bus, ch: Chunk, n: nat)
    requires Fits(ch.ops) && Loads(b, ch, n) && c.lists == b.lists && c.st == b.st.(notified := c.st.notified)
    ensures Loads(c, ch, n)
  {
    hide Pack, Fits;
  }

  /** Execution looks at the driver's state, the registers and the current request only. */
  lemma SameExecution(w: World, v: World)
    requires Shaped(w) && Shaped(v) && Executed(w)
    requires Current(v.bus) == Current(w.bus) && v.bus.addr == w.bus.addr && v.bus.lists == w.bus.lists
    requires v.bus.started == w.bus.started && v.bus.st == w.bus.st.(notified := v.bus.st.notified)
    requires v.top == w.top && v.hw == w.hw && v.past.done == w.past.done
    requires v.past == w.past.(submitted := v.past.submitted, collected := v.past.collected)
    ensures Executed(v)
  {
    hide AddressField, TopBit, KnownChain, DoneOk, TopAfter, Sent, SentOk, Current, Shape, Holds;
    if w.bus.started && KnownChain(Current(w.bus)[0].data, w.past.reading0) {
      SameHolds(w, v, Current(w.bus)[0].data);
    }
  }

  lemma SubmitExecuted(w: World)
    requires Shaped(w) && Conserved(w) && Executed(w) && w.taking.Taking?
    ensures Shaped(DoSubmit(w)) && Executed(DoSubmit(w))
  {
    hide Executed, Bag, Shape, OnlyWrote, Conserved, InPool, Current, RequestAt, Store;
    var t := w.taking;
    NoRingOverflows(w);
    Distinct(w);
    SubmitFacts(w.bus, t.buf, t.req);
    var v := DoSubmit(w);
    CurrentSame(w.bus, v.bus, t.buf);
    SameExecution(w, v);
  }

  lemma InterruptExecuted(w: World, ctl: bv32, timeout: bool, performed: nat, hw: bool, b: Bus)
    requires Shaped(w) && Conserved(w) && Executed(w) && w.bus.started && Busy(w.bus)
    requires Shape(b) && Shaped(AfterInterrupt(w, b, ctl, timeout, Hardware(w, ctl, timeout, performed, hw)))
    requires b == Settled(Irq(w.bus, ctl, timeout)) || b == Settled(IrqIntended(w.bus, ctl, timeout))
    ensures Executed(AfterInterrupt(w, b, ctl, timeout, Hardware(w, ctl, timeout, performed, hw)))
  {
    hide Executed, LoadTokens, CheckBuf, Report, Shape, Failed, NamesToken, Complete, AddressField, Hardware, Current;
    IrqEnds(w.bus, ctl, timeout);
    ReportKeeps(w.bus, ctl, timeout);
    var b1 := Report(w.bus, ctl, timeout);
    var p := Hardware(w, ctl, timeout, performed, hw);
    if !EndsRequest(w.bus, ctl) {
      ContinueExecuted(w, ctl, timeout, performed, hw);
    } else {
      CurrentOne(w.bus);
      var done := Ending(w, Current(w.bus)[0], ctl, timeout, p);
      var u := w.(bus := Complete(b1), hw := p.reading, past := w.past.(done := w.past.done + [done]));
      CompleteShape(b1);
      CompleteState(b1);
      ReportAddr(w.bus, ctl, timeout);
      assert Shaped(u);
      FinishExecuted(w, ctl, timeout, performed, hw, u);
      if b != Complete(b1) {
        CheckBufShape(Complete(b1));
        StartExecuted(u, b);
      } else {
        FinishExecuted(w, ctl, timeout, performed, hw, Started(u, w.bus.st.reading));
      }
    }
  }

  lemma CompleteState(b: Bus)
    requires Shape(b) && Busy(b)
    ensures var c := Complete(b);
      !Busy(c) && c.addr == b.addr && SameRegion(b, c) && c.st.reading == b.st.reading
  {
  }

  /** Popping and releasing do not touch the request in progress. */
  lemma ServerExecuted(w: World, v: World)
    requires Shaped(w) && Shaped(v) && Executed(w)
    requires v == DoPop(w) || v == DoRelease(w)
    ensures Executed(v)
  {
    hide Executed, Shape, HeaderAt, Current;
    CurrentKept(w.bus, v.bus);
    SameExecution(w, v);
  }

  lemma InterruptsExecuted(w: World, ctl: bv32, timeout: bool, performed: nat, hw: bool)
    requires Shaped(w) && Conserved(w) && Executed(w) && CanInterrupt(w, ctl)
    ensures var v := Standing(DoInterrupt(w, ctl, timeout, performed, hw)); Shaped(v) && Executed(v)
    ensures var v := Standing(DoInterruptIntended(w, ctl, timeout, performed, hw)); Shaped(v) && Executed(v)
  {
    hide Executed, Conserved, Shape, Irq, IrqIntended, Hardware, AfterInterrupt, DoInterrupt, DoInterruptIntended,
         Settled;
    StartedBusy(w.bus);
    InterruptStands(w, ctl, timeout, performed, hw);
    InterruptExecuted(w, ctl, timeout, performed, hw, Settled(Irq(w.bus, ctl, timeout)));
    InterruptExecuted(w, ctl, timeout, performed, hw, Settled(IrqIntended(w.bus, ctl, timeout)));
  }

  /** Every step keeps the execution invariant. */
  lemma StepExecuted(w: World, a: Action)
    requires Shaped(w) && Conserved(w) && Executed(w)
    ensures Shaped(Standing(Step(w, a))) && Executed(Standing(Step(w, a)))
  {
    hide Executed, Conserved, Shaped, DoSubmit, DoNotify, DoTake, DoPop, DoRelease, DoInterrupt, DoInterruptIntended,
         CanInterrupt;
    StepShaped(w, a);
    var n := Standing(Step(w, a));
    match a
    case Take(req) => TakeExecuted(w, req);
    case Submitting => DoSubmitExecuted(w);
    case Notify => NotifyExecuted(w);
    case Interrupt(ctl, timeout, performed, hw) =>
      if CanInterrupt(w, ctl) {
        InterruptsExecuted(w, ctl, timeout, performed, hw);
      }
    case InterruptIntended(ctl, timeout, performed, hw) =>
      if CanInterrupt(w, ctl) {
        InterruptsExecuted(w, ctl, timeout, performed, hw);
      }
    case Pop => ServerExecuted(w, n);
    case Release => ServerExecuted(w, n);
  }

  lemma TakeExecuted(w: World, req: Request)
    requires Shaped(w) && Executed(w)
    ensures Shaped(DoTake(w, req)) ==> Executed(DoTake(w, req))
  {
    hide Executed, Shape, Current;
    var v := DoTake(w, req);
    if Shaped(v) {
      CurrentKept(w.bus, v.bus);
      SameExecution(w, v);
    }
  }

  lemma DoSubmitExecuted(w: World)
    requires Shaped(w) && Conserved(w) && Executed(w)
    ensures Shaped(DoSubmit(w)) ==> Executed(DoSubmit(w))
  {
    hide Executed, Conserved, Shape, Submit;
    if w.taking.Taking? {
      SubmitExecuted(w);
    }
  }

  lemma NotifyExecuted(w: World)
    requires Shaped(w) && Executed(w)
    ensures Shaped(Standing(DoNotify(w))) && Executed(Standing(DoNotify(w)))
  {
    hide Executed, LoadTokens, Accept, Shape, Current;
    NotifyShaped(w);
    NotifyStands(w);
    if CheckBuf(w.bus).Ok? {
      if !Busy(w.bus) {
        StartExecuted(w, CheckBuf(w.bus).bus);
      } else {
        CheckBufShape(w.bus);
        CheckBufKeepsBase(w.bus);
        CurrentKept(w.bus, CheckBuf(w.bus).bus);
        SameExecution(w, w.(bus := CheckBuf(w.bus).bus));
      }
    }
  }
}
