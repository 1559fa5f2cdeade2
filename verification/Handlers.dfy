/**
 The two programs' event handlers, over both buses: the driver's `notified`, which is called for
 notifications from the server and for interrupts, and the server's `driverNotify`.  The buffers of both
 buses lie in one memory.
 */
module Handlers {
  import opened Tokens
  import opened RingBuffer
  import opened Memory
  import opened BusModel
  import opened Transport
  import opened Driver
  import BusRuns

  // The driver's channels.
  const SERVER_NOTIFY_ID := 1
  const IRQ_I2C_M2 := 2
  const IRQ_I2C_M2_TO := 3
  const IRQ_I2C_M3 := 4
  const IRQ_I2C_M3_TO := 5

  // ---------- The driver ----------

  /** What an event on channel `c` does to bus 2, and to bus 3. */
  ghost function Handled2(b: Bus, c: int, ctl: bv32): Outcome
    requires Shape(b) && (c == IRQ_I2C_M2 || c == IRQ_I2C_M2_TO ==> b.started)
  {
    if c == SERVER_NOTIFY_ID then CheckBuf(b)
    else if c == IRQ_I2C_M2 || c == IRQ_I2C_M2_TO then Irq(b, ctl, c == IRQ_I2C_M2_TO)
    else Ok(b)
  }

  ghost function Handled3(b: Bus, c: int, ctl: bv32): Outcome
    requires Shape(b) && (c == IRQ_I2C_M3 || c == IRQ_I2C_M3_TO ==> b.started)
  {
    if c == SERVER_NOTIFY_ID then CheckBuf(b)
    else if c == IRQ_I2C_M3 || c == IRQ_I2C_M3_TO then Irq(b, ctl, c == IRQ_I2C_M3_TO)
    else Ok(b)
  }

  /** Both buses on one memory, in order, and an event on channel `c` is possible: the hardware raises an
      interrupt only while it owns a list. */
  ghost predicate CanNotify(b2: Bus, b3: Bus, c: int) {
    && Shape(b2) && Shape(b3) && b2.mem == b3.mem
    && (c == IRQ_I2C_M2 || c == IRQ_I2C_M2_TO ==> b2.started)
    && (c == IRQ_I2C_M3 || c == IRQ_I2C_M3_TO ==> b3.started)
  }

  /** Both buses after an event, and whether the handler faulted. */
  datatype Both = Both(fault: bool, m2: Bus, m3: Bus)

  /** What an event does: first to bus 2, then, on the memory that leaves and unless it faulted, to bus 3. */
  ghost function Handled(b2: Bus, b3: Bus, c: int, ctl: bv32): Both
    requires CanNotify(b2, b3, c)
  {
    var o2 := Handled2(b2, c, ctl);
    Handled2Size(b2, c, ctl);
    MemoryShape(b3, o2.bus.mem);
    var b3' := b3.(mem := o2.bus.mem);
    if o2.Faulted? then Both(true, o2.bus, b3') else
    var o3 := Handled3(b3', c, ctl);
    Both(o3.Faulted?, o2.bus.(mem := o3.bus.mem), o3.bus)
  }

  lemma Handled2Size(b: Bus, c: int, ctl: bv32)
    requires Shape(b) && (c == IRQ_I2C_M2 || c == IRQ_I2C_M2_TO ==> b.started)
    ensures |Handled2(b, c, ctl).bus.mem| == |b.mem|
  {
    hide CheckBuf, Irq, Shape;
    BusRuns.CheckBufKeepsBase(b);
    if b.started {
      BusRuns.IrqKeepsBase(b, ctl, c == IRQ_I2C_M2_TO);
    }
  }

  lemma MemoryShape(b: Bus, mem: seq<byte>)
    requires Shape(b) && |mem| == |b.mem|
    ensures Shape(b.(mem := mem))
  {
  }

  /** The objects of a bus's driver that the other bus has no part in. */
  ghost function OwnObjects(d: BusDriver): set<object> {
    {d, d.iface} + d.ch.Own()
  }

  /** When only memory has changed, only memory has changed in the value of a bus. */
  twostate lemma OnlyMemory(d: BusDriver)
    requires old(d.Valid()) && unchanged(OwnObjects(d))
    ensures d.Valid() && d.View() == old(d.View()).(mem := d.ch.mem[..])
  {
  }

  /** The driver: one `BusDriver` for bus 2 and one for bus 3. */
  class I2cDriver {
    const m2: BusDriver
    const m3: BusDriver

    /** The buses share the memory that holds their buffers and nothing else; bus 3's are behind bus 2's. */
    static ghost predicate OnOneMemory(m2: BusDriver, m3: BusDriver) {
      && OwnObjects(m2) !! OwnObjects(m3) && m2.ch.mem == m3.ch.mem && m2.ch.mem !in OwnObjects(m2) + OwnObjects(m3)
      && m2.ch.origin == m3.ch.origin && m2.ch.base + REGION_SZ <= m3.ch.base
    }

    ghost predicate Valid()
      reads OwnObjects(m2), OwnObjects(m3), m2.ch.mem, m3.ch.mem
    {
      OnOneMemory(m2, m3) && m2.Valid() && m3.Valid()
    }

    constructor (m2: BusDriver, m3: BusDriver)
      requires OnOneMemory(m2, m3) && m2.Valid() && m3.Valid()
      ensures Valid() && this.m2 == m2 && this.m3 == m3
    {
      this.m2 := m2;
      this.m3 := m3;
    }

    lemma SameMemory()
      requires Valid()
      ensures m2.Valid() && m3.Valid() && m2.View().mem == m3.View().mem == m2.ch.mem[..]
      ensures Shape(m2.View()) && Shape(m3.View())
      ensures m2.View().started == m2.iface.start && m3.View().started == m3.iface.start
    {
    }

    /** `checkBuf` on one bus. */
    method Check(bus: int) returns (fault: bool)
      requires Valid() && (bus == 2 || bus == 3)
      modifies OwnObjects(m2), OwnObjects(m3), m2.ch.mem
      ensures Valid()
      ensures var o := CheckBuf(if bus == 2 then old(m2.View()) else old(m3.View()));
        && fault == o.Faulted?
        && m2.View() == (if bus == 2 then o.bus else old(m2.View()).(mem := o.bus.mem))
        && m3.View() == (if bus == 3 then o.bus else old(m3.View()).(mem := o.bus.mem))
    {
      hide BusModel.CheckBuf, Shape, Channel.RingsValid, BusDriver.View;
      if bus == 2 {
        fault := m2.CheckBuf();
        OnlyMemory(m3);
      } else {
        fault := m3.CheckBuf();
        OnlyMemory(m2);
      }
      SameMemory();
    }

    /** `serverNotify`: the notification does not name a bus, so both are checked, bus 2 first. */
    method ServerNotify() returns (fault: bool)
      requires Valid()
      modifies OwnObjects(m2), OwnObjects(m3), m2.ch.mem
      ensures Valid() && CanNotify(old(m2.View()), old(m3.View()), SERVER_NOTIFY_ID)
      ensures Both(fault, m2.View(), m3.View()) == Handled(old(m2.View()), old(m3.View()), SERVER_NOTIFY_ID, 0)
    {
      hide BusModel.CheckBuf, BusDriver.View, Shape, Valid;
      SameMemory();
      ghost var b2, b3 := m2.View(), m3.View();
      ghost var b3' := b3.(mem := CheckBuf(b2).bus.mem);
      var i := 2;
      while i < 4
        invariant 2 <= i <= 4 && Valid() && m2.ch.RingsValid() && m3.ch.RingsValid()
        invariant i == 2 ==> m2.View() == b2 && m3.View() == b3
        invariant i > 2 ==> CheckBuf(b2).Ok? && Shape(b3')
        invariant i == 3 ==> m2.View() == CheckBuf(b2).bus && m3.View() == b3'
        invariant i == 4 ==> CheckBuf(b3') == Ok(m3.View())
        invariant i == 4 ==> m2.View() == CheckBuf(b2).bus.(mem := CheckBuf(b3').bus.mem)
      {
        fault := Check(i);
        if fault {
          return true;
        }
        SameMemory();
        i := i + 1;
      }
      return false;
    }

    /** An interrupt of one bus. */
    method Interrupt(bus: int, ctl: bv32, timeout: bool) returns (fault: bool)
      requires Valid() && (bus == 2 || bus == 3) && (if bus == 2 then m2 else m3).iface.start
      modifies OwnObjects(m2), OwnObjects(m3), m2.ch.mem
      ensures Valid() && Shape(if bus == 2 then old(m2.View()) else old(m3.View()))
      ensures (if bus == 2 then old(m2.View()) else old(m3.View())).started
      ensures var o := Irq(if bus == 2 then old(m2.View()) else old(m3.View()), ctl, timeout);
        && fault == o.Faulted?
        && m2.View() == (if bus == 2 then o.bus else old(m2.View()).(mem := o.bus.mem))
        && m3.View() == (if bus == 3 then o.bus else old(m3.View()).(mem := o.bus.mem))
    {
      hide Irq, Shape, Channel.RingsValid, BusDriver.View;
      SameMemory();
      if bus == 2 {
        fault := m2.I2cIrq(ctl, timeout);
        OnlyMemory(m3);
      } else {
        fault := m3.I2cIrq(ctl, timeout);
        OnlyMemory(m2);
      }
      SameMemory();
    }

    /** `notified`: dispatches on the channel.  `ctl` is the control register of the bus it is for. */
    method Notified(c: int, ctl: bv32) returns (fault: bool)
      requires Valid()
      requires c == IRQ_I2C_M2 || c == IRQ_I2C_M2_TO ==> m2.iface.start
      requires c == IRQ_I2C_M3 || c == IRQ_I2C_M3_TO ==> m3.iface.start
      modifies OwnObjects(m2), OwnObjects(m3), m2.ch.mem
      ensures Valid() && CanNotify(old(m2.View()), old(m3.View()), c)
      ensures Both(fault, m2.View(), m3.View()) == Handled(old(m2.View()), old(m3.View()), c, ctl)
    {
      hide BusModel.CheckBuf, Irq, BusDriver.View, Shape, Valid;
      SameMemory();
      match c {
        case 1 => fault := ServerNotify();
        case 2 => fault := Interrupt(2, ctl, false);
        case 3 => fault := Interrupt(2, ctl, true);
        case 4 => fault := Interrupt(3, ctl, false);
        case 5 => fault := Interrupt(3, ctl, true);
        case _ => fault := false;
      }
    }
  }

  // ---------- The server ----------

  /** What the server reads from a return buffer before releasing it. */
  datatype Collected = Collected(bus: int, err: byte, errTk: byte, client: byte, addr: byte, size: nat)

  /** What `allocReqBuf` does to a bus. */
  ghost function AfterAlloc(b: Bus, data: seq<byte>, client: byte, addr: byte): (c: Bus)
    requires Shape(b)
    ensures |c.mem| == |b.mem|
  {
    if |data| > BUF_SZ - 2 || b.rings.reqFree == [] then b
    else
      TakeShape(b);
      Submit(TakeReq(b), b.rings.reqFree[0].addr, client, addr, data)
  }

  /** When `allocReqBuf` fails. */
  ghost predicate CannotAlloc(b: Bus, data: seq<byte>) {
    |data| > BUF_SZ - 2 || b.rings.reqFree == [] || |b.rings.reqUsed| == CAPACITY
  }

  /** What one turn of `driverNotify` does to a bus, and what the server learns. */
  ghost function AfterCollect(b: Bus): (c: Bus)
    ensures c.mem == b.mem
  {
    if b.rings.retUsed == [] then b else ReleaseRet(PopRet(b), b.rings.retUsed[0].addr)
  }

  ghost function Reports(b: Bus, bus: int): seq<Collected>
    requires Shape(b)
  {
    if b.rings.retUsed == [] then []
    else
      PopPlaces(b);
      var o := b.rings.retUsed[0].addr - b.origin;
      [Collected(bus, b.mem[o + RET_BUF_ERR], b.mem[o + RET_BUF_ERR_TK],
                 b.mem[o + RET_BUF_CLIENT], b.mem[o + RET_BUF_ADDR], b.rings.retUsed[0].len)]
  }

  lemma PopPlaces(b: Bus)
    requires Shape(b) && b.rings.retUsed != []
    ensures InRet(b.base, b.rings.retUsed[0].addr) && Shape(PopRet(b))
    ensures b.origin <= b.rings.retUsed[0].addr && b.rings.retUsed[0].addr + BUF_SZ <= b.origin + |b.mem|
  {
    PopShape(b);
  }

  lemma NothingFree(base: nat)
    ensures FreeRings(base, 0) == Rings([], [], [], [])
  {
  }

  lemma ViewMemory(ch: Channel)
    requires ch.RingsValid()
    ensures ch.View().origin == ch.origin && ch.View().base == ch.base && ch.View().mem == ch.mem[..]
    ensures Mapped(ch.origin, ch.base, ch.mem.Length)
    ensures ch.View().st == IDLE && !ch.View().started
  {
  }

  /** When only memory has changed, only memory has changed in the value of a channel. */
  twostate lemma OnlyChannelMemory(ch: Channel)
    requires old(ch.Valid()) && unchanged(ch.Own())
    ensures ch.Valid() && ch.View() == old(ch.View()).(mem := ch.mem[..])
  {
  }

  /** When nothing of a channel has changed, its value has not. */
  twostate lemma Untouched(ch: Channel)
    requires old(ch.RingsValid()) && unchanged(ch.Repr())
    ensures ch.RingsValid() && ch.View() == old(ch.View())
  {
  }

  /** The server: its ends of the two buses' channels. */
  class I2cServer {
    const m2: Channel
    const m3: Channel

    /** The channels share the memory that holds their buffers and nothing else; bus 3's are behind bus 2's. */
    static ghost predicate OnOneMemory(m2: Channel, m3: Channel) {
      && m2.Own() !! m3.Own() && m2.mem == m3.mem && m2.mem !in m2.Own() + m3.Own()
      && m2.origin == m3.origin && m2.base + REGION_SZ <= m3.base
    }

    ghost predicate Valid()
      reads m2.Repr(), m3.Repr()
    {
      OnOneMemory(m2, m3) && m2.Valid() && m3.Valid()
    }

    constructor (m2: Channel, m3: Channel)
      requires OnOneMemory(m2, m3) && m2.Valid() && m3.Valid()
      ensures Valid() && this.m2 == m2 && this.m3 == m3
    {
      this.m2 := m2;
      this.m3 := m3;
    }

    lemma RingsApart()
      requires OnOneMemory(m2, m3)
      ensures m2.Own() !! m3.Repr() && m3.Own() !! m2.Repr()
    {
    }

    /** `ring_init` on all rings. */
    method InitBoth()
      requires OnOneMemory(m2, m3) && m2.RingsValid() && m3.RingsValid()
      modifies m2.Own(), m3.Own()
      ensures m2.RingsValid() && m2.View() == old(m2.View()).(rings := Rings([], [], [], []))
      ensures m3.RingsValid() && m3.View() == old(m3.View()).(rings := Rings([], [], [], []))
    {
      RingsApart();
      hide Channel.View, Channel.RingsValid, Channel.Own, Channel.Repr;
      m2.InitRings();
      Untouched(m3);
      label Init2:
      m3.InitRings();
      Untouched@Init2(m2);
    }

    /** Queues the `i`-th buffers of both buses as free. */
    method FreeBoth(i: nat)
      requires OnOneMemory(m2, m3) && m2.RingsValid() && m3.RingsValid() && i < BUF_COUNT
      requires m2.View().rings == FreeRings(m2.base, i) && m3.View().rings == FreeRings(m3.base, i)
      modifies m2.Own(), m3.Own()
      ensures m2.RingsValid() && m2.View() == old(m2.View()).(rings := FreeRings(m2.base, i + 1))
      ensures m3.RingsValid() && m3.View() == old(m3.View()).(rings := FreeRings(m3.base, i + 1))
    {
      RingsApart();
      hide Channel.View, Channel.RingsValid, Channel.Own, Channel.Repr, FreeRings;
      m2.FreeOne(i);
      Untouched(m3);
      label Free2:
      m3.FreeOne(i);
      Untouched@Free2(m2);
    }

    /** `i2cTransportInit(1)`: resets all rings and queues every buffer as free. */
    method TransportInit()
      requires Valid()
      modifies m2.Own(), m3.Own()
      ensures Valid()
      ensures m2.View() == old(m2.View()).(rings := FreeRings(m2.base, BUF_COUNT))
      ensures m3.View() == old(m3.View()).(rings := FreeRings(m3.base, BUF_COUNT))
    {
      hide Channel.View, Channel.RingsValid, Channel.Own, Channel.Repr, FreeRings, Shape;
      InitBoth();
      NothingFree(m2.base);
      NothingFree(m3.base);
      var i := 0;
      while i < BUF_COUNT
        invariant 0 <= i <= BUF_COUNT
        invariant m2.RingsValid() && m2.View() == old(m2.View()).(rings := FreeRings(m2.base, i))
        invariant m3.RingsValid() && m3.View() == old(m3.View()).(rings := FreeRings(m3.base, i))
      {
        FreeBoth(i);
        i := i + 1;
      }
      ViewMemory(m2);
      ViewMemory(m3);
      PoolShape(m2.View());
      PoolShape(m3.View());
    }

    /** `allocReqBuf`: queues a request on a bus; 0 when the bus does not exist, the data is too long or
        no buffer is free. */
    method AllocReqBuf(bus: int, data: seq<byte>, client: byte, addr: byte) returns (buf: nat)
      requires Valid()
      modifies m2.Repr(), m3.Repr()
      ensures Valid()
      ensures bus == 2 ==> var b := AfterAlloc(old(m2.View()), data, client, addr);
        m2.View() == b && m3.View() == old(m3.View()).(mem := b.mem)
      ensures bus == 3 ==> var b := AfterAlloc(old(m3.View()), data, client, addr);
        m3.View() == b && m2.View() == old(m2.View()).(mem := b.mem)
      ensures bus != 2 && bus != 3 ==> m2.View() == old(m2.View()) && m3.View() == old(m3.View())
      ensures buf == 0 <==>
        (bus == 2 ==> CannotAlloc(old(m2.View()), data)) && (bus == 3 ==> CannotAlloc(old(m3.View()), data))
    {
      hide Channel.View, Channel.RingsValid, Submit, TakeReq, Shape;
      if bus != 2 && bus != 3 {
        return 0;
      }
      if bus == 2 {
        buf := m2.AllocReqBuf(data, client, addr);
        OnlyChannelMemory(m3);
      } else {
        buf := m3.AllocReqBuf(data, client, addr);
        OnlyChannelMemory(m2);
      }
      ViewMemory(m2);
      ViewMemory(m3);
    }

    /** `driverNotify` for one bus: reads and releases the next return buffer, if there is one. */
    method Collect(bus: int, ch: Channel) returns (cs: seq<Collected>)
      requires ch.Valid()
      modifies ch.Own()
      ensures ch.Valid()
      ensures ch.View() == AfterCollect(old(ch.View())) && cs == Reports(old(ch.View()), bus)
    {
      hide Shape, Channel.View, Channel.RingsValid, PopRet, ReleaseRet;
      ghost var b := ch.View();
      var empty := ch.RetBufEmpty();
      if empty {
        return [];
      }
      PopPlaces(b);
      ViewMemory(ch);
      var ret, sz := ch.PopRetBuf();
      var o := ret - ch.origin;
      cs := [Collected(bus, ch.mem[o + RET_BUF_ERR], ch.mem[o + RET_BUF_ERR_TK],
                       ch.mem[o + RET_BUF_CLIENT], ch.mem[o + RET_BUF_ADDR], sz)];
      var released := ch.ReleaseRetBuf(ret);
    }

    /** `driverNotify`: takes one return buffer of each bus that has one. */
    method DriverNotify() returns (cs: seq<Collected>)
      requires Valid()
      modifies m2.Own(), m3.Own()
      ensures Valid()
      ensures m2.View() == AfterCollect(old(m2.View())) && m3.View() == AfterCollect(old(m3.View()))
      ensures cs == Reports(old(m2.View()), 2) + Reports(old(m3.View()), 3)
    {
      hide Channel.View, Channel.RingsValid, Shape, AfterCollect, Reports;
      RingsApart();
      ghost var b2, b3 := m2.View(), m3.View();
      cs := [];
      var i := 2;
      while i < 4
        invariant 2 <= i <= 4 && Valid()
        invariant m2.View() == if i == 2 then b2 else AfterCollect(b2)
        invariant m3.View() == if i < 4 then b3 else AfterCollect(b3)
        invariant cs == (if i == 2 then [] else Reports(b2, 2)) + (if i < 4 then [] else Reports(b3, 3))
      {
        var c := Collect(i, if i == 2 then m2 else m3);
        cs := cs + c;
        i := i + 1;
      }
    }
  }
}
