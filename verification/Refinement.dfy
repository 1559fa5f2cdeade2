/**
 The handlers of the two programs are steps of the system: what the classes of module Handlers are proved to
 do to the two buses is what the state machines of modules BusRuns and System do, so the properties of all
 runs are properties of those handlers under any interleaving; and initialisation leaves the two programs in
 a state from which those runs start.
 */
module Refinement {
  import opened Tokens
  import opened Registers
  import opened RingBuffer
  import opened Memory
  import opened BusModel
  import opened BusRuns
  import opened Conservation
  import opened Invariant
  import opened Transport
  import opened Driver
  import opened Handlers
  import opened System

  // ---------- Server handlers ----------

  /** `allocReqBuf` is taking a free buffer and submitting it. */
  lemma AllocIsSteps(w: World, req: Request)
    requires Shaped(w) && w.taking.Nothing?
    ensures Shape(w.bus) && Run(w, [Take(req), Submitting]).Next?
    ensures var v := Run(w, [Take(req), Submitting]).w;
      && v.bus == AfterAlloc(w.bus, req.data, req.client, req.target) && v.taking.Nothing?
      && v.past.submitted == w.past.submitted + if CannotAlloc(w.bus, req.data) then [] else [req]
  {
    hide Run, Submit, Shape;
    RunTwo(w, Take(req), Submitting);
    if |req.data| <= BUF_SZ - 2 && w.bus.rings.reqFree != [] {
      TakeShape(w.bus);
    }
    assert w.past.submitted + [] == w.past.submitted;
  }

  /** In states that runs reach it fails only for data that is too long or when no buffer is free. */
  lemma AllocFailsExactly(w: World, data: seq<byte>)
    requires Inv(w) && w.taking.Nothing?
    ensures CannotAlloc(w.bus, data) <==> |data| > 510 || w.bus.rings.reqFree == []
  {
    if |data| <= BUF_SZ - 2 && w.bus.rings.reqFree != [] {
      var a := Take(Request(0, 0, data));
      StepCore(w, a);
      NoRingOverflows(Step(w, a).w);
    }
  }

  lemma RunTwo(w: World, a: Action, b: Action)
    requires Shaped(w)
    ensures Run(w, [a, b]) == var n := Act(w, a); if n.Crash? then n else Act(n.w, b)
  {
    hide Shaped, Act;
    RunCons(w, a, [b]);
    assert [a] + [b] == [a, b];
    var n := Act(w, a);
    if n.Next? {
      RunCons(n.w, b, []);
      assert [b] + [] == [b];
    }
  }

  /** `driverNotify` on a bus is popping and releasing: what it reports is the header that is collected. */
  lemma CollectIsSteps(w: World, bus: int)
    requires Shaped(w) && w.held == 0
    ensures Shape(w.bus) && Run(w, [Pop, Release]).Next?
    ensures var v := Run(w, [Pop, Release]).w;
      var reports := Reports(w.bus, bus);
      && v.bus == AfterCollect(w.bus) && v.held == 0
      && v.past.collected == w.past.collected + HeadersOf(reports)
  {
    hide Run, DoPop, DoRelease, Reports, AfterCollect, Shaped;
    RunTwo(w, Pop, Release);
    Collecting(w, bus);
  }

  lemma Collecting(w: World, bus: int)
    requires Shaped(w) && w.held == 0
    ensures Shape(w.bus)
    ensures var v := DoRelease(DoPop(w));
      && v.bus == AfterCollect(w.bus) && v.held == 0
      && v.past.collected == w.past.collected + HeadersOf(Reports(w.bus, bus))
  {
    hide Shape, BusModel.Enqueue;
    if w.bus.rings.retUsed != [] {
      PopPlaces(w.bus);
    } else {
      assert w.past.collected + [] == w.past.collected;
    }
  }

  function HeadersOf(cs: seq<Collected>): seq<Header> {
    seq(|cs|, i requires 0 <= i < |cs| =>
      Header(cs[i].client, cs[i].addr, cs[i].err, cs[i].errTk, cs[i].size))
  }

  // ---------- Driver handlers ----------

  /** A handler's outcome agrees with a step's. */
  predicate SameBus(o: Outcome, r: Result) {
    r.w.bus == o.bus && if o.Ok? then r.Next? else r.Crash? && r.why == o.why && r.popped == o.popped
  }

  lemma CheckIsStep(w: World)
    requires Shaped(w)
    ensures Shape(w.bus) && SameBus(CheckBuf(w.bus), Act(w, Notify))
  {
    hide CheckBuf;
  }

  lemma InterruptIsStep(w: World, ctl: bv32, timeout: bool, performed: nat, hw: bool)
    requires Shaped(w) && CanInterrupt(w, ctl)
    ensures Shape(w.bus) && w.bus.started
    ensures SameBus(Irq(w.bus, ctl, timeout), Act(w, Interrupt(ctl, timeout, performed, hw)))
  {
    hide Irq, Hardware, Shape, AddressField, EndsRequest;
    IrqShape(w.bus, ctl, timeout);
  }

  /** The step of the system that an event on a channel of the driver is: 1 is the server's notification, 2 and 3
      are the clean interrupt and the timeout of bus 2, 4 and 5 those of bus 3. */
  function EventStep(c: int, ctl: bv32, performed: nat, hw: bool): SysAction {
    if c == 1 then ServerNotify
    else if c == 2 || c == 3 then On(M2, Interrupt(ctl, c == 3, performed, hw))
    else On(M3, Interrupt(ctl, c == 5, performed, hw))
  }

  /** The system's buses, as the driver's handlers see them. */
  function BothOf(r: SysResult): Both {
    Both(r.Down?, Of(r.s, M2).bus, Of(r.s, M3).bus)
  }

  /** A step of one bus of the system, seen from both. */
  lemma OnStep(s: Sys, bus: BusId, a: Action)
    requires SysShaped(s)
    ensures var n := Act(Of(s, bus), a); var r := ActOn(s, bus, a); var other := Other(bus);
      && (r.Down? <==> n.Crash?) && Of(r.s, bus) == n.w
      && Of(r.s, other) == Of(s, other).(bus := Of(s, other).bus.(mem := n.w.bus.mem))
  {
    hide Act, Shaped;
  }

  /** `serverNotify` is a step of the system: the same buses afterwards, on the same memory, and a fault exactly
      when the step brings the driver down. */
  lemma NotifyIsSystemStep(s: Sys)
    requires SysShaped(s)
    ensures CanNotify(Of(s, M2).bus, Of(s, M3).bus, 1)
    ensures BothOf(SysAct(s, ServerNotify)) == Handled(Of(s, M2).bus, Of(s, M3).bus, 1, 0)
  {
    hide CheckBuf, Shape, Act, ActOn;
    CheckIsStep(Of(s, M2));
    OnStep(s, M2, Notify);
    var n := ActOn(s, M2, Notify);
    CheckIsStep(Of(n.s, M3));
    OnStep(n.s, M3, Notify);
  }

  /** So is an interrupt. */
  lemma InterruptIsSystemStep(s: Sys, c: int, ctl: bv32, performed: nat, hw: bool)
    requires SysShaped(s) && 2 <= c <= 5
    requires CanInterrupt(Of(s, if c <= 3 then M2 else M3), ctl)
    ensures CanNotify(Of(s, M2).bus, Of(s, M3).bus, c)
    ensures BothOf(SysAct(s, EventStep(c, ctl, performed, hw))) == Handled(Of(s, M2).bus, Of(s, M3).bus, c, ctl)
  {
    hide Irq, Shape, Act, ActOn, NamesToken;
    var bus, timeout := if c <= 3 then M2 else M3, c == 3 || c == 5;
    InterruptIsStep(Of(s, bus), ctl, timeout, performed, hw);
    OnStep(s, bus, Interrupt(ctl, timeout, performed, hw));
  }

  // ---------- Steps of one bus in the system ----------

  function OnBus(bus: BusId, acts: seq<Action>): seq<SysAction> {
    seq(|acts|, i requires 0 <= i < |acts| => On(bus, acts[i]))
  }

  /** A run of the system in which only one bus acts is that bus's run on the shared memory. */
  lemma {:induction false} OneBusRuns(s: Sys, bus: BusId, acts: seq<Action>)
    requires SysShaped(s)
    ensures var n := Run(Of(s, bus), acts); var r := SysRun(s, OnBus(bus, acts)); var other := Other(bus);
      && (r.Down? <==> n.Crash?) && Of(r.s, bus) == n.w
      && Of(r.s, other) == Of(s, other).(bus := Of(s, other).bus.(mem := n.w.bus.mem))
    decreases |acts|
  {
    hide Act, Shaped, ActOn, SysShaped;
    if acts != [] {
      OnStep(s, bus, acts[0]);
      assert OnBus(bus, acts)[1..] == OnBus(bus, acts[1..]);
      var n := ActOn(s, bus, acts[0]);
      if n.Running? {
        OneBusRuns(n.s, bus, acts[1..]);
      }
    }
  }

  /** `allocReqBuf` on a bus of the system: what its class is proved to do to both channels. */
  lemma AllocIsSystemRun(s: Sys, bus: BusId, req: Request)
    requires SysShaped(s) && Of(s, bus).taking.Nothing?
    ensures Shape(Of(s, bus).bus)
    ensures var b := AfterAlloc(Of(s, bus).bus, req.data, req.client, req.target);
      var r := SysRun(s, OnBus(bus, [Take(req), Submitting])); var other := Other(bus);
      r.Running? && Of(r.s, bus).bus == b && Of(r.s, other).bus == Of(s, other).bus.(mem := b.mem)
  {
    hide Run, SysRun, AfterAlloc, Shaped, Shape;
    AllocIsSteps(Of(s, bus), req);
    OneBusRuns(s, bus, [Take(req), Submitting]);
  }

  /** One turn of `driverNotify` on a bus of the system. */
  lemma CollectIsSystemRun(s: Sys, bus: BusId)
    requires SysShaped(s) && Of(s, bus).held == 0
    ensures var r := SysRun(s, OnBus(bus, [Pop, Release])); var other := Other(bus);
      r.Running? && Of(r.s, bus).bus == AfterCollect(Of(s, bus).bus) && Of(r.s, other) == Of(s, other)
  {
    hide Run, SysRun, AfterCollect, Shaped, Shape;
    CollectIsSteps(Of(s, bus), 2);
    OneBusRuns(s, bus, [Pop, Release]);
  }

  // ---------- Initialisation ----------

  /** The channel of a bus, over rings in fresh shared memory. */
  method NewChannel(origin: nat, base: nat, mem: array<byte>) returns (ch: Channel)
    requires Mapped(origin, base, mem.Length)
    ensures ch.Valid() && fresh(ch.Own()) && fresh(ch)
    ensures ch.origin == origin && ch.base == base && ch.mem == mem
  {
    var reqFree := new Ring();
    var reqUsed := new Ring();
    var retFree := new Ring();
    var retUsed := new Ring();
    ch := new Channel(origin, base, RingHandle(reqFree, reqUsed), RingHandle(retFree, retUsed), mem);
  }

  /** `init` of the driver, for one bus. */
  method NewDriver(origin: nat, base: nat, mem: array<byte>, iface: Interface) returns (d: BusDriver)
    requires Mapped(origin, base, mem.Length) && !iface.start
    ensures d.Valid() && d.State() == IDLE && d.iface == iface
    ensures d.ch.origin == origin && d.ch.base == base && d.ch.mem == mem
    ensures fresh(d) && fresh(d.ch) && fresh(d.ch.Own())
  {
    hide Channel.RingsValid, Channel.View, Shape;
    var ch := NewChannel(origin, base, mem);
    d := new BusDriver(ch, iface);
  }

  /** A bus as it is when nothing has happened on it yet. */
  ghost function Fresh(b: Bus, hw: bool): World {
    World(b.(mem := []), hw, TopBit(b.addr), Nothing, 0, History([], [], [], false, hw, 0, [], false))
  }

  /** An idle driver's bus once the server has freed all buffers. */
  ghost predicate Booted(b: Bus) {
    Mapped(b.origin, b.base, |b.mem|) && b.rings == FreeRings(b.base, BUF_COUNT) && b.st == IDLE && !b.started
  }

  lemma BootedInitial(b2: Bus, b3: Bus, hw2: bool, hw3: bool)
    requires Booted(b2) && Booted(b3) && b2.mem == b3.mem && |b2.mem| == DRIVER_BUFS_SZ
    requires b2.origin == b3.origin == b2.base && b3.base == b2.base + REGION_SZ
    ensures SysInitial(Sys(b2.mem, Fresh(b2, hw2), Fresh(b3, hw3)))
  {
    hide FreeRings, TopBit;
  }

  lemma ChannelIdle(d: BusDriver)
    requires d.Valid() && d.State() == IDLE && !d.iface.start
    ensures d.ch.Valid()
  {
    hide Channel.RingsValid, Channel.View, Shape;
    d.InMemory();
    IdleView(d.View(), d.ch.View());
  }

  /** `init` of the server leaves an idle driver's bus as it should be. */
  lemma DriverBooted(d: BusDriver)
    requires d.Separate() && d.ch.Valid() && d.State() == IDLE && !d.iface.start
    requires d.ch.View().rings == FreeRings(d.ch.base, BUF_COUNT)
    ensures d.Valid() && Booted(d.View()) && d.View().mem == d.ch.mem[..]
    ensures d.View().origin == d.ch.origin && d.View().base == d.ch.base
  {
    hide Channel.RingsValid, Channel.View;
    ViewMemory(d.ch);
    IdleShape(d.ch.View(), d.View());
  }

  twostate lemma StillValid(d: BusDriver)
    requires old(d.Valid()) && unchanged(OwnObjects(d)) && unchanged(d.ch.mem)
    ensures d.Valid() && d.State() == old(d.State()) && d.View() == old(d.View())
  {
    hide Shape;
  }

  /** `init` of the driver. */
  method NewDrivers(driverBufs: nat, mem: array<byte>, i2: Interface, i3: Interface)
    returns (d2: BusDriver, d3: BusDriver)
    requires 0 < driverBufs && mem.Length == DRIVER_BUFS_SZ && i2 != i3 && !i2.start && !i3.start
    ensures d2.Valid() && d2.State() == IDLE && d2.iface == i2 && d2.ch.base == driverBufs
    ensures d3.Valid() && d3.State() == IDLE && d3.iface == i3 && d3.ch.base == driverBufs + REGION_SZ
    ensures I2cDriver.OnOneMemory(d2, d3) && d2.ch.mem == mem && d2.ch.origin == driverBufs
    ensures fresh(d2.ch.Own()) && fresh(d3.ch.Own())
  {
    hide Channel.RingsValid, Channel.View, BusDriver.View, Shape;
    d2 := NewDriver(driverBufs, driverBufs, mem, i2);
    label Made2:
    d3 := NewDriver(driverBufs, driverBufs + REGION_SZ, mem, i3);
    StillValid@Made2(d2);
  }

  /** `init` of the server, for idle drivers. */
  method InitServer(d2: BusDriver, d3: BusDriver) returns (server: I2cServer)
    requires d2.Valid() && d2.State() == IDLE && !d2.iface.start
    requires d3.Valid() && d3.State() == IDLE && !d3.iface.start
    requires I2cDriver.OnOneMemory(d2, d3)
    modifies d2.ch.Own(), d3.ch.Own()
    ensures server.Valid() && server.m2 == d2.ch && server.m3 == d3.ch
    ensures d2.Valid() && Booted(d2.View()) && d2.View().mem == d2.ch.mem[..]
    ensures d3.Valid() && Booted(d3.View()) && d3.View().mem == d3.ch.mem[..]
    ensures d2.View().origin == d2.ch.origin && d2.View().base == d2.ch.base
    ensures d3.View().origin == d3.ch.origin && d3.View().base == d3.ch.base
  {
    hide Channel.RingsValid, Channel.View, BusDriver.View, Shape, FreeRings, Booted;
    ChannelIdle(d2);
    ChannelIdle(d3);
    server := new I2cServer(d2.ch, d3.ch);
    server.TransportInit();
    DriverBooted(d2);
    DriverBooted(d3);
  }

  /** The two programs start: the driver's `init`, and then the server's.  What they leave is an initial state
      of the system, whatever the hardware's directions. */
  method Boot(driverBufs: nat, mem: array<byte>, i2: Interface, i3: Interface)
    returns (driver: I2cDriver, server: I2cServer)
    requires 0 < driverBufs && mem.Length == DRIVER_BUFS_SZ && i2 != i3 && !i2.start && !i3.start
    ensures driver.Valid() && server.Valid() && driver.m2.ch == server.m2 && driver.m3.ch == server.m3
    ensures driver.m2.iface == i2 && driver.m3.iface == i3
    ensures forall hw2, hw3 :: SysInitial(Sys(mem[..], Fresh(driver.m2.View(), hw2), Fresh(driver.m3.View(), hw3)))
  {
    hide Channel.RingsValid, Channel.View, BusDriver.View, BusDriver.State, Shape, Fresh, SysInitial, FreeRings;
    var d2, d3 := NewDrivers(driverBufs, mem, i2, i3);
    driver := new I2cDriver(d2, d3);
    server := InitServer(d2, d3);
    forall hw2, hw3 ensures SysInitial(Sys(mem[..], Fresh(d2.View(), hw2), Fresh(d3.View(), hw3))) {
      BootedInitial(d2.View(), d3.View(), hw2, hw3);
    }
  }
}
