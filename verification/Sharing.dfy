/**
 The part of memory a bus works on.  Both buses' buffers are in one region, and every operation stores and
 loads at absolute addresses in it.  Here: no step of a bus touches memory outside its own part, and none
 depends on it, so that a bus does the same when its part is all the memory there is.
 */
module Sharing {
  import opened Tokens
  import opened Registers
  import opened Loader
  import opened RingBuffer
  import opened Memory
  import opened BusModel
  import opened BusRuns
  import opened Ordering

  /** The part of a bus at offset `lo` of memory, and what is before and behind it. */
  function RegionAt(mem: seq<byte>, lo: nat): (m: seq<byte>)
    requires lo + REGION_SZ <= |mem|
    ensures |m| == REGION_SZ
  {
    mem[lo..lo + REGION_SZ]
  }

  function Around(mem: seq<byte>, lo: nat): (seq<byte>, seq<byte>)
    requires lo + REGION_SZ <= |mem|
  {
    (mem[..lo], mem[lo + REGION_SZ..])
  }

  /** A bus's part of memory. */
  function Part(b: Bus): (m: seq<byte>)
    requires Mapped(b.origin, b.base, |b.mem|)
    ensures |m| == REGION_SZ
  {
    RegionAt(b.mem, b.base - b.origin)
  }

  /** The bus with nothing but its part of memory. */
  function Own(b: Bus): Bus
    requires Mapped(b.origin, b.base, |b.mem|)
  {
    b.(origin := b.base, mem := Part(b))
  }

  function OwnWorld(w: World): World
    requires Shaped(w)
  {
    MemSize(w.bus);
    w.(bus := Own(w.bus))
  }

  /** The two buses agree on all memory but the part. */
  predicate SameOutside(b: Bus, c: Bus)
    requires Mapped(b.origin, b.base, |b.mem|)
  {
    SameRegion(b, c) && Around(c.mem, b.base - b.origin) == Around(b.mem, b.base - b.origin)
  }

  // ---------- Storing and loading ----------

  /** A store into the part is a store into the part alone. */
  lemma StoreInPart(b: Bus, m: seq<byte>, p: nat, o: nat, data: seq<byte>)
    requires Mapped(b.origin, b.base, |b.mem|) && b.base <= p && p + o + |data| <= b.base + REGION_SZ
    requires m == Store(b.mem, p - b.origin + o, data)
    ensures |m| == |b.mem| && Around(m, b.base - b.origin) == Around(b.mem, b.base - b.origin)
    ensures RegionAt(m, b.base - b.origin) == Store(Part(b), p - b.base + o, data)
  {
    var lo := b.base - b.origin;
    StoreSlice(b.mem, lo, lo + REGION_SZ, p - b.origin + o, data);
  }

  lemma StoreSlice(m: seq<byte>, lo: nat, hi: nat, o: nat, data: seq<byte>)
    requires lo <= o && o + |data| <= hi <= |m|
    ensures Store(m, o, data)[..lo] == m[..lo] && Store(m, o, data)[hi..] == m[hi..]
    ensures Store(m, o, data)[lo..hi] == Store(m[lo..hi], o - lo, data)
  {
    var x, y := Store(m, o, data)[lo..hi], Store(m[lo..hi], o - lo, data);
    forall k | 0 <= k < hi - lo ensures x[k] == y[k] {
      assert x[k] == Store(m, o, data)[lo + k];
    }
  }

  lemma SliceOfPart(b: Bus, p: nat, o: nat, n: nat)
    requires Mapped(b.origin, b.base, |b.mem|) && b.base <= p && p + o + n <= b.base + REGION_SZ
    ensures Part(b)[p - b.base + o..p - b.base + o + n] == b.mem[p - b.origin + o..p - b.origin + o + n]
  {
    var x, y := Part(b)[p - b.base + o..p - b.base + o + n], b.mem[p - b.origin + o..p - b.origin + o + n];
    forall k | 0 <= k < n ensures x[k] == y[k] {
    }
  }

  lemma ByteOfPart(b: Bus, p: nat, k: nat)
    requires Mapped(b.origin, b.base, |b.mem|) && b.base <= p && p + k < b.base + REGION_SZ
    ensures Part(b)[p - b.base + k] == b.mem[p - b.origin + k]
  {
  }

  // ---------- Operations ----------

  lemma OwnShape(b: Bus)
    requires Shape(b)
    ensures Mapped(b.origin, b.base, |b.mem|) && Shape(Own(b))
  {
  }

  lemma OwnRequest(b: Bus, d: Desc)
    requires Shape(b) && InReq(b.base, d.addr) && 2 <= d.len <= BUF_SZ
    ensures Mapped(b.origin, b.base, |b.mem|) && Shape(Own(b)) && RequestAt(Own(b), d) == RequestAt(b, d)
  {
    OwnShape(b);
    hide Shape;
    InRegion(b.base, d.addr);
    SliceOfPart(b, d.addr, 0, BUF_SZ);
  }

  lemma OwnHeader(b: Bus, d: Desc)
    requires Shape(b) && InRet(b.base, d.addr)
    ensures Mapped(b.origin, b.base, |b.mem|) && Shape(Own(b)) && HeaderAt(Own(b), d) == HeaderAt(b, d)
  {
    OwnShape(b);
    hide Shape;
    InRegion(b.base, d.addr);
    SliceOfPart(b, d.addr, 0, BUF_SZ);
  }

  lemma OwnCurrent(b: Bus)
    requires Shape(b)
    ensures Mapped(b.origin, b.base, |b.mem|) && Shape(Own(b)) && Current(Own(b)) == Current(b)
  {
    OwnShape(b);
    hide RequestAt;
    if Busy(b) {
      OwnRequest(b, Desc(b.st.currentReq, b.st.reqLen + 2));
    }
  }

  lemma OwnCells(b: Bus)
    requires Shape(b) && Busy(b)
    ensures Mapped(b.origin, b.base, |b.mem|) && Shape(Own(b)) && Busy(Own(b))
    ensures CurrentCells(Own(b)) == CurrentCells(b) && CurrentTarget(Own(b)) == CurrentTarget(b)
  {
    OwnShape(b);
    BusyFacts(b);
    CellsInside(b);
    SliceOfPart(b, b.st.currentReq, 2, b.st.reqLen + 1);
    ByteOfPart(b, b.st.currentReq, 1);
  }

  /** The byte behind a chain is still in the bus's part: return buffers follow the request buffers. */
  lemma CellsInside(b: Bus)
    requires Shape(b) && Busy(b)
    ensures b.base <= b.st.currentReq && b.st.currentReq + BUF_SZ < b.base + REGION_SZ
  {
  }

  lemma OwnLoad(b: Bus)
    requires Shape(b) && Busy(b)
    ensures Mapped(b.origin, b.base, |b.mem|) && Shape(Own(b)) && Busy(Own(b))
    ensures var l := LoadTokens(b); SameRegion(b, l.bus) && l.bus.mem == b.mem
    ensures LoadTokens(Own(b)) == Loaded(Own(LoadTokens(b).bus), LoadTokens(b).ok)
  {
    hide LoadFrom, Pack, LoadAddress, CurrentCells, CurrentTarget, Shape;
    OwnCells(b);
  }

  /** What accepting does to memory. */
  lemma AcceptStores(b: Bus)
    requires Shape(b) && b.rings.reqUsed != [] && b.rings.retFree != []
    ensures Mapped(b.origin, b.base, |b.mem|)
    ensures var m := Accept(b).mem; var lo := b.base - b.origin;
      var d, r := b.rings.reqUsed[0].addr, b.rings.retFree[0].addr;
      && |m| == |b.mem| && Around(m, lo) == Around(b.mem, lo) && b.base <= d && d + 1 < b.base + REGION_SZ
      && b.base <= r && r + 4 <= b.base + REGION_SZ
      && RegionAt(m, lo) ==
         Store(Part(b), r - b.base + RET_BUF_CLIENT, [Part(b)[d - b.base], Part(b)[d - b.base + 1]])
  {
    hide Shape, Store, RegionAt, Around, InReq, InRet, InPool;
    AcceptedInside(b);
    var d, r := b.rings.reqUsed[0].addr, b.rings.retFree[0].addr;
    ByteOfPart(b, d, 0);
    ByteOfPart(b, d, 1);
    var o := d - b.origin;
    StoreInPart(b, Accept(b).mem, r, RET_BUF_CLIENT, [b.mem[o], b.mem[o + 1]]);
  }

  lemma AcceptedInside(b: Bus)
    requires Shape(b) && b.rings.reqUsed != [] && b.rings.retFree != []
    ensures Mapped(b.origin, b.base, |b.mem|)
    ensures b.base <= b.rings.reqUsed[0].addr && b.rings.reqUsed[0].addr + BUF_SZ <= b.base + REGION_SZ
    ensures b.base <= b.rings.retFree[0].addr && b.rings.retFree[0].addr + BUF_SZ <= b.base + REGION_SZ
  {
    AcceptedPlaces(b);
    MemSize(b);
    hide Shape;
    InRegion(b.base, b.rings.retFree[0].addr);
    InRegion(b.base, b.rings.reqUsed[0].addr);
  }

  lemma OwnAccept(b: Bus)
    requires Shape(b) && !Busy(b) && b.rings.reqUsed != [] && b.rings.retFree != []
    ensures Mapped(b.origin, b.base, |b.mem|) && Shape(Own(b))
    ensures SameOutside(b, Accept(b)) && Accept(Own(b)) == Own(Accept(b))
  {
    hide Shape, Store, RegionAt, Around, InReq, InRet, InPool;
    OwnShape(b);
    AcceptStores(b);
    assert Accept(Own(b)).mem == Own(Accept(b)).mem;
  }

  lemma OwnReport(b: Bus, ctl: bv32, timeout: bool)
    requires Shape(b) && Busy(b)
    ensures Mapped(b.origin, b.base, |b.mem|) && Shape(Own(b)) && Busy(Own(b))
    ensures SameOutside(b, Report(b, ctl, timeout))
    ensures Report(Own(b), ctl, timeout) == Own(Report(b, ctl, timeout))
  {
    OwnShape(b);
    BusyFacts(b);
    hide Shape, Store, ReportedCode, ReportedToken, RegionAt, Around;
    InRegion(b.base, b.st.currentRet);
    StoreInPart(b, Report(b, ctl, timeout).mem, b.st.currentRet, 0,
      [ReportedCode(ctl, timeout), ReportedToken(ctl)]);
  }

  /** What submitting does to memory. */
  lemma SubmitStores(b: Bus, p: nat, text: seq<byte>)
    requires Shape(b) && InReq(b.base, p) && |text| <= BUF_SZ
    ensures Mapped(b.origin, b.base, |b.mem|) && b.base <= p && p + |text| <= b.base + REGION_SZ
    ensures var m := Store(b.mem, p - b.origin, text); var lo := b.base - b.origin;
      |m| == |b.mem| && Around(m, lo) == Around(b.mem, lo) && RegionAt(m, lo) == Store(Part(b), p - b.base, text)
  {
    hide Shape, Store, RegionAt, Around, InReq, InPool;
    MemSize(b);
    InRegion(b.base, p);
    StoreInPart(b, Store(b.mem, p - b.origin, text), p, 0, text);
  }

  lemma OwnSubmit(b: Bus, p: nat, client: byte, target: byte, data: seq<byte>)
    requires Shape(b) && InReq(b.base, p) && |data| <= BUF_SZ - 2
    ensures Mapped(b.origin, b.base, |b.mem|) && Shape(Own(b))
    ensures SameOutside(b, Submit(b, p, client, target, data))
    ensures Submit(Own(b), p, client, target, data) == Own(Submit(b, p, client, target, data))
  {
    hide Shape, Store, RegionAt, Around, InReq, InPool, Enqueue;
    OwnShape(b);
    SubmitStores(b, p, [client, target] + data);
    assert Part(Submit(b, p, client, target, data)) ==
      Store(Part(b), p - b.base, [client, target] + data);
  }

  /** What a handler makes of the bus with its own part of memory. */
  function OwnOutcome(o: Outcome): Outcome
    requires Mapped(o.bus.origin, o.bus.base, |o.bus.mem|)
  {
    o.(bus := Own(o.bus))
  }

  lemma OutsideTwice(b: Bus, c: Bus, e: Bus)
    requires Mapped(b.origin, b.base, |b.mem|) && SameOutside(b, c) && SameOutside(c, e)
    ensures SameOutside(b, e)
  {
  }

  lemma OutsideSame(b: Bus, c: Bus)
    requires Mapped(b.origin, b.base, |b.mem|) && SameRegion(b, c) && c.mem == b.mem
    ensures SameOutside(b, c) && Part(c) == Part(b)
  {
  }

  lemma OwnCheckBuf(b: Bus)
    requires Shape(b)
    ensures Mapped(b.origin, b.base, |b.mem|) && Shape(Own(b)) && SameOutside(b, CheckBuf(b).bus)
    ensures CheckBuf(Own(b)) == OwnOutcome(CheckBuf(b))
  {
    hide LoadTokens, Accept, Shape, Part, SameOutside;
    OwnShape(b);
    if b.rings.reqUsed != [] && !Busy(b) && b.rings.retFree != [] {
      OwnAccept(b);
      AcceptShape(b);
      OwnLoad(Accept(b));
      OutsideSame(Accept(b), LoadTokens(Accept(b)).bus);
      OutsideTwice(b, Accept(b), LoadTokens(Accept(b)).bus);
    } else {
      OutsideSame(b, CheckBuf(b).bus);
    }
  }

  lemma OwnComplete(b: Bus)
    requires Shape(b) && Busy(b)
    ensures Mapped(b.origin, b.base, |b.mem|) && Shape(Own(b)) && Busy(Own(b))
    ensures SameRegion(b, Complete(b)) && Complete(b).mem == b.mem && Complete(Own(b)) == Own(Complete(b))
  {
    OwnShape(b);
    hide Shape;
  }

  lemma OwnIrq(b: Bus, ctl: bv32, timeout: bool)
    requires Shape(b) && b.started
    ensures Mapped(b.origin, b.base, |b.mem|) && Shape(Own(b))
    ensures SameOutside(b, Irq(b, ctl, timeout).bus) && SameOutside(b, IrqIntended(b, ctl, timeout).bus)
    ensures Irq(Own(b), ctl, timeout) == OwnOutcome(Irq(b, ctl, timeout))
    ensures IrqIntended(Own(b), ctl, timeout) == OwnOutcome(IrqIntended(b, ctl, timeout))
  {
    hide LoadTokens, CheckBuf, Report, Complete, Shape, Part, SameOutside, Failed;
    OwnShape(b);
    StartedBusy(b);
    OwnReport(b, ctl, timeout);
    ReportShape(b, ctl, timeout);
    ReportKeeps(b, ctl, timeout);
    var b1 := Report(b, ctl, timeout);
    if !EndsRequest(b, ctl) {
      OwnLoad(b1);
      OutsideSame(b1, LoadTokens(b1).bus);
      OutsideTwice(b, b1, LoadTokens(b1).bus);
    } else {
      OwnComplete(b1);
      CompleteShape(b1);
      OutsideSame(b1, Complete(b1));
      OutsideTwice(b, b1, Complete(b1));
      OwnCheckBuf(Complete(b1));
      OutsideTwice(b, Complete(b1), CheckBuf(Complete(b1)).bus);
    }
  }

  // ---------- Steps ----------

  /** A result, seen with the bus's own part of memory. */
  function OwnResult(r: Result): Result
    requires Shaped(r.w)
  {
    r.(w := OwnWorld(r.w))
  }

  lemma OwnShaped(w: World)
    requires Shaped(w)
    ensures Shaped(OwnWorld(w))
  {
    OwnShape(w.bus);
    hide Shape;
  }

  /** A step does with the bus's own part of memory what it does with all memory, and touches no other. */
  lemma StepOwn(w: World, a: Action)
    requires Shaped(w)
    ensures Shaped(OwnWorld(w)) && Shaped(Step(w, a).w)
    ensures Mapped(w.bus.origin, w.bus.base, |w.bus.mem|) && SameOutside(w.bus, Step(w, a).w.bus)
    ensures Step(OwnWorld(w), a) == OwnResult(Step(w, a))
  {
    hide Shape, Part, SameOutside, DoTake, DoSubmit, DoNotify, DoInterrupt, DoInterruptIntended, DoPop, DoRelease,
         OwnWorld, Shaped;
    OwnShaped(w);
    StepShaped(w, a);
    match a
    case Take(req) => TakeOwn(w, req);
    case Submitting => SubmitOwn(w);
    case Notify => NotifyOwn(w);
    case Interrupt(ctl, timeout, performed, hw) => InterruptOwn(w, ctl, timeout, performed, hw);
    case InterruptIntended(ctl, timeout, performed, hw) => InterruptOwn(w, ctl, timeout, performed, hw);
    case Pop => PopOwn(w);
    case Release => ReleaseOwn(w);
  }

  lemma TakeOwn(w: World, req: Request)
    requires Shaped(w) && Shaped(DoTake(w, req))
    ensures Mapped(w.bus.origin, w.bus.base, |w.bus.mem|) && SameOutside(w.bus, DoTake(w, req).bus)
    ensures DoTake(OwnWorld(w), req) == OwnWorld(DoTake(w, req))
  {
    hide Shape, RegionAt, Around;
    MemSize(w.bus);
  }

  lemma SubmitOwn(w: World)
    requires Shaped(w) && Shaped(DoSubmit(w)) && Shaped(OwnWorld(w))
    ensures Mapped(w.bus.origin, w.bus.base, |w.bus.mem|) && SameOutside(w.bus, DoSubmit(w).bus)
    ensures DoSubmit(OwnWorld(w)) == OwnWorld(DoSubmit(w))
  {
    hide Shape, Part, Submit, Around;
    MemSize(w.bus);
    if w.taking.Taking? {
      OwnSubmit(w.bus, w.taking.buf, w.taking.req.client, w.taking.req.target, w.taking.req.data);
    }
  }

  lemma NotifyOwn(w: World)
    requires Shaped(w) && Shaped(DoNotify(w).w) && Shaped(OwnWorld(w))
    ensures Mapped(w.bus.origin, w.bus.base, |w.bus.mem|) && SameOutside(w.bus, DoNotify(w).w.bus)
    ensures DoNotify(OwnWorld(w)) == OwnResult(DoNotify(w))
  {
    hide Shape, Part, CheckBuf, SameOutside;
    OwnCheckBuf(w.bus);
  }

  /** Recording an interrupt looks at memory only to name the request. */
  lemma AfterOwn(w: World, b: Bus, ctl: bv32, timeout: bool, p: Work)
    requires Shaped(w) && Busy(w.bus) && Shape(b) && Shaped(AfterInterrupt(w, b, ctl, timeout, p))
    ensures Shaped(OwnWorld(w)) && Busy(OwnWorld(w).bus) && Mapped(b.origin, b.base, |b.mem|) && Shape(Own(b))
    ensures AfterInterrupt(OwnWorld(w), Own(b), ctl, timeout, p) == OwnWorld(AfterInterrupt(w, b, ctl, timeout, p))
  {
    hide Shape, Part, Current, Failed, AddressField;
    OwnShaped(w);
    OwnShape(b);
    OwnCurrent(w.bus);
    CurrentOne(w.bus);
  }

  lemma HardwareOwn(w: World, ctl: bv32, timeout: bool, performed: nat, hw: bool)
    requires Shaped(w)
    ensures CanInterrupt(OwnWorld(w), ctl) == CanInterrupt(w, ctl)
    ensures Hardware(OwnWorld(w), ctl, timeout, performed, hw) == Hardware(w, ctl, timeout, performed, hw)
  {
    hide Shape, Part, NamesToken, HwList, AddressField, Failed;
    MemSize(w.bus);
  }

  lemma InterruptOwn(w: World, ctl: bv32, timeout: bool, performed: nat, hw: bool)
    requires Shaped(w) && Shaped(OwnWorld(w))
    ensures Mapped(w.bus.origin, w.bus.base, |w.bus.mem|) && CanInterrupt(OwnWorld(w), ctl) == CanInterrupt(w, ctl)
    ensures SameOutside(w.bus, w.bus)
    ensures CanInterrupt(w, ctl) ==>
      var r := DoInterrupt(w, ctl, timeout, performed, hw);
      && Shaped(r.w) && SameOutside(w.bus, r.w.bus)
      && DoInterrupt(OwnWorld(w), ctl, timeout, performed, hw) == OwnResult(r)
    ensures CanInterrupt(w, ctl) ==>
      var r := DoInterruptIntended(w, ctl, timeout, performed, hw);
      && Shaped(r.w) && SameOutside(w.bus, r.w.bus)
      && DoInterruptIntended(OwnWorld(w), ctl, timeout, performed, hw) == OwnResult(r)
  {
    hide Shape, Part, Irq, IrqIntended, SameOutside, Hardware, AfterInterrupt, NamesToken, Shaped;
    ShapedBus(w);
    MemSize(w.bus);
    OutsideSame(w.bus, w.bus);
    HardwareOwn(w, ctl, timeout, performed, hw);
    if CanInterrupt(w, ctl) {
      StartedBusy(w.bus);
      InterruptShaped(w, ctl, timeout, performed, hw);
      OwnIrq(w.bus, ctl, timeout);
      IrqShape(w.bus, ctl, timeout);
      var p := Hardware(w, ctl, timeout, performed, hw);
      AfterBus(w, Irq(w.bus, ctl, timeout).bus, ctl, timeout, p);
      AfterBus(w, IrqIntended(w.bus, ctl, timeout).bus, ctl, timeout, p);
      AfterOwn(w, Irq(w.bus, ctl, timeout).bus, ctl, timeout, p);
      AfterOwn(w, IrqIntended(w.bus, ctl, timeout).bus, ctl, timeout, p);
    }
  }

  lemma ShapedBus(w: World)
    requires Shaped(w)
    ensures Shape(w.bus)
  {
  }

  lemma PopOwn(w: World)
    requires Shaped(w) && Shaped(DoPop(w)) && Shaped(OwnWorld(w))
    ensures Mapped(w.bus.origin, w.bus.base, |w.bus.mem|) && SameOutside(w.bus, DoPop(w).bus)
    ensures DoPop(OwnWorld(w)) == OwnWorld(DoPop(w))
  {
    hide HeaderAt, RegionAt, Around;
    if w.held == 0 && w.bus.rings.retUsed != [] {
      assert w.bus.rings.retUsed[0] in w.bus.rings.retUsed;
      OwnHeader(w.bus, w.bus.rings.retUsed[0]);
    }
  }

  lemma ReleaseOwn(w: World)
    requires Shaped(w) && Shaped(DoRelease(w))
    ensures Mapped(w.bus.origin, w.bus.base, |w.bus.mem|) && SameOutside(w.bus, DoRelease(w).bus)
    ensures DoRelease(OwnWorld(w)) == OwnWorld(DoRelease(w))
  {
    hide Shape, RegionAt, Around;
    MemSize(w.bus);
  }
}
