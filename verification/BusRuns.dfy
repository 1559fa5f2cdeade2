/**
 All runs of one bus: the server submitting, collecting and releasing buffers, the driver handling
 notifications and interrupts, and the hardware working through lists, in any order.

 The driver's handlers are single steps: its protection domain has the higher priority, so the server
 never runs inside one.  The server can be interrupted between any two ring operations, so each of its
 ring operations is a step.
 */
module BusRuns {
  import opened Tokens
  import opened Registers
  import opened Loader
  import opened RingBuffer
  import opened Memory
  import opened BusModel

  /** A request as a client states it. */
  datatype Request = Request(client: byte, target: byte, data: seq<byte>)

  /** What a return buffer tells the server: whose request it answers, the error code and the token it was
      at, and the size it is queued with. */
  datatype Header = Header(client: byte, target: byte, code: byte, token: byte, size: nat)

  /** A finished request: the control register and the kind of the interrupt that ended it, the address the
      hardware sent, what happened on the bus, the directions driver and hardware had when it was accepted,
      and whether a list of it was cut short by a timeout that reported no error. */
  datatype Done = Done(
    req: Request, ctl: bv32, timeout: bool, sent: byte, events: seq<Event>, reading: bool, hw: bool, cut: bool)
  {
    /** The error bit is set, and the token field names a token. */
    predicate Failed() {
      ctl & 0x8 != 0 && ctl & 0xF0 != 0
    }
  }

  /** What has happened so far.  For the request in progress: the directions driver and hardware had when
      it was accepted, the lists completed, the events of those, and whether one of them was cut short. */
  datatype History = History(
    submitted: seq<Request>, done: seq<Done>, collected: seq<Header>,
    reading0: bool, hw0: bool, completed: nat, events: seq<Event>, cut: bool)

  /** A buffer the server has taken for a request it is about to submit. */
  datatype Taking = Nothing | Taking(buf: nat, req: Request)

  /** `hw` is the direction of the last address the hardware sent; `top` tells whether bit 7 of the address
      register was set initially; `held` is the return buffer the server is reading, 0 if none. */
  datatype World = World(bus: Bus, hw: bool, top: bool, taking: Taking, held: nat, past: History)

  datatype Action =
    | Take(req: Request)
    | Submitting
    | Notify
    | Interrupt(ctl: bv32, timeout: bool, performed: nat, hw: bool)
    | InterruptIntended(ctl: bv32, timeout: bool, performed: nat, hw: bool)
    | Pop
    | Release

  /** A step leads to a state, or crashes the driver and leaves this state behind; `popped` is a request the
      driver had taken off its ring and not yet recorded. */
  datatype Result = Next(w: World) | Crash(why: Fault, w: World, popped: seq<Desc>)

  predicate Crashes(r: Result, why: Fault) {
    r.Crash? && r.why == why
  }

  /** A request is returned as failed exactly when the driver sees an error. */
  lemma DoneFailed(e: Done)
    ensures e.Failed() <==> Failed(e.ctl)
  {
  }

  // ---------- Reading buffers ----------

  function RequestIn(buf: seq<byte>, len: nat): Request
    requires |buf| == BUF_SZ && 2 <= len <= BUF_SZ
  {
    Request(buf[0], buf[1], buf[2..len])
  }

  function HeaderIn(buf: seq<byte>, size: nat): Header
    requires |buf| == BUF_SZ
  {
    Header(buf[2], buf[3], buf[0], buf[1], size)
  }

  function RequestAt(b: Bus, d: Desc): Request
    requires Shape(b) && InReq(b.base, d.addr) && 2 <= d.len <= BUF_SZ
  {
    RequestIn(Buffer(b.mem, d.addr - b.origin), d.len)
  }

  function HeaderAt(b: Bus, d: Desc): Header
    requires Shape(b) && InRet(b.base, d.addr)
  {
    HeaderIn(Buffer(b.mem, d.addr - b.origin), d.len)
  }

  /** The requests waiting in the used ring. */
  function Waiting(b: Bus): seq<Request>
    requires Shape(b)
  {
    seq(|b.rings.reqUsed|, i requires 0 <= i < |b.rings.reqUsed| => RequestAt(b, b.rings.reqUsed[i]))
  }

  /** The requests in buffers the driver has popped. */
  function Popped(b: Bus, q: seq<Desc>): seq<Request>
    requires Shape(b) && forall d <- q :: InReq(b.base, d.addr) && 2 <= d.len <= BUF_SZ
  {
    seq(|q|, i requires 0 <= i < |q| => RequestAt(b, q[i]))
  }

  /** The request in progress, if any. */
  function Current(b: Bus): seq<Request>
    requires Shape(b)
  {
    if Busy(b) then [RequestAt(b, Desc(b.st.currentReq, b.st.reqLen + 2))] else []
  }

  /** The headers waiting in the return ring. */
  function Returned(b: Bus): seq<Header>
    requires Shape(b)
  {
    seq(|b.rings.retUsed|, i requires 0 <= i < |b.rings.retUsed| => HeaderAt(b, b.rings.retUsed[i]))
  }

  /** The return buffer in the driver's hands, with the size it will be queued with. */
  function CurrentAnswer(b: Bus): Desc
    requires Shape(b)
  {
    Desc(b.st.currentRet, b.st.reqLen)
  }

  function Requests(done: seq<Done>): seq<Request> {
    seq(|done|, i requires 0 <= i < |done| => done[i].req)
  }

  /** The header that answers a finished request truthfully. */
  function HeaderOf(d: Done): Header {
    Header(d.req.client, d.req.target, if !d.Failed() then 0 else if d.timeout then 1 else 2,
           if d.Failed() then (d.ctl & 0xF0) as byte else 0, |d.req.data|)
  }

  function Headers(done: seq<Done>): seq<Header> {
    seq(|done|, i requires 0 <= i < |done| => HeaderOf(done[i]))
  }

  // ---------- Steps ----------

  /** A reported error names a token. */
  predicate NamesToken(ctl: bv32) {
    ctl & 0x8 != 0 ==> ctl & 0xF0 != 0
  }

  /** Whether the hardware can raise an interrupt with this control register: it owns a list, and a
      reported error names a token. */
  predicate CanInterrupt(w: World, ctl: bv32) {
    w.bus.started && NamesToken(ctl)
  }

  /** What the hardware has done when it raises an interrupt. */
  datatype Work = Work(events: seq<Event>, reading: bool, cut: bool)

  /** The hardware works on the current list: all of it, or up to an error or a timeout, after `performed`
      events; `hw` is the direction it then has.  A timeout that reports no error has cut the list short. */
  function Hardware(w: World, ctl: bv32, timeout: bool, performed: nat, hw: bool): Work {
    var p := HwList(w.bus.lists, AddressField(w.bus.addr), w.hw);
    if Failed(ctl) then Work(p.events[..if performed < |p.events| then performed else |p.events|], hw, false)
    else if timeout && performed < |p.events| then Work(p.events[..performed], hw, true)
    else Work(p.events, p.reading, false)
  }

  /** The record after an interrupt that leaves the bus as `b`. */
  function AfterInterrupt(w: World, b: Bus, ctl: bv32, timeout: bool, p: Work): World
    requires Shape(w.bus) && Busy(w.bus) && Shape(b)
  {
    var events, cut := w.past.events + p.events, w.past.cut || p.cut;
    if EndsRequest(w.bus, ctl) then
      var done := Done(
        Current(w.bus)[0], ctl, timeout, AddressField(w.bus.addr), events, w.past.reading0, w.past.hw0, cut);
      Started(w.(bus := b, hw := p.reading, past := w.past.(done := w.past.done + [done])), w.bus.st.reading)
    else w.(bus := b, hw := p.reading, past := w.past.(completed := w.past.completed + 1, events := events, cut := cut))
  }

  lemma AfterBus(w: World, b: Bus, ctl: bv32, timeout: bool, p: Work)
    requires Shape(w.bus) && Busy(w.bus) && Shape(b)
    ensures var v := AfterInterrupt(w, b, ctl, timeout, p);
      v.bus == b && v.taking == w.taking && v.held == w.held
  {
    hide Shape, Current, Failed, AddressField;
  }

  /** The record of a request that starts now with driver direction `reading`. */
  function Started(w: World, reading: bool): World {
    w.(past := w.past.(reading0 := reading, hw0 := w.hw, completed := 0, events := [], cut := false))
  }

  // An action that cannot happen in a state leaves it as it is.

  function DoTake(w: World, req: Request): World {
    if w.taking.Nothing? && |req.data| <= BUF_SZ - 2 && w.bus.rings.reqFree != []
    then w.(taking := Taking(w.bus.rings.reqFree[0].addr, req), bus := TakeReq(w.bus))
    else w
  }

  function DoSubmit(w: World): World
    requires Shaped(w)
  {
    if w.taking.Nothing? then w else
    var t := w.taking;
    w.(taking := Nothing, bus := Submit(w.bus, t.buf, t.req.client, t.req.target, t.req.data),
       past := if |w.bus.rings.reqUsed| == CAPACITY then w.past
               else w.past.(submitted := w.past.submitted + [t.req]))
  }

  function DoNotify(w: World): Result
    requires Shaped(w)
  {
    var o := CheckBuf(w.bus);
    if o.Faulted? then Crash(o.why, w.(bus := o.bus), o.popped)
    else if Busy(w.bus) then Next(w.(bus := o.bus))
    else Next(Started(w.(bus := o.bus), w.bus.st.reading))
  }

  function DoInterrupt(w: World, ctl: bv32, timeout: bool, performed: nat, hw: bool): Result
    requires Shaped(w) && CanInterrupt(w, ctl)
  {
    IrqShape(w.bus, ctl, timeout);
    var o := Irq(w.bus, ctl, timeout);
    var v := AfterInterrupt(w, o.bus, ctl, timeout, Hardware(w, ctl, timeout, performed, hw));
    if o.Faulted? then Crash(o.why, v, o.popped) else Next(v)
  }

  function DoInterruptIntended(w: World, ctl: bv32, timeout: bool, performed: nat, hw: bool): Result
    requires Shaped(w) && CanInterrupt(w, ctl)
  {
    IrqShape(w.bus, ctl, timeout);
    var o := IrqIntended(w.bus, ctl, timeout);
    var v := AfterInterrupt(w, o.bus, ctl, timeout, Hardware(w, ctl, timeout, performed, hw));
    if o.Faulted? then Crash(o.why, v, o.popped) else Next(v)
  }

  function DoPop(w: World): World
    requires Shaped(w)
  {
    if w.held == 0 && w.bus.rings.retUsed != [] then
      assert w.bus.rings.retUsed[0] in w.bus.rings.retUsed;
      var d := w.bus.rings.retUsed[0];
      w.(held := d.addr, bus := PopRet(w.bus),
         past := w.past.(collected := w.past.collected + [HeaderAt(w.bus, d)]))
    else w
  }

  function DoRelease(w: World): World {
    if w.held == 0 then w else w.(held := 0, bus := ReleaseRet(w.bus, w.held))
  }

  /** One step. */
  function Step(w: World, a: Action): Result
    requires Shaped(w)
  {
    match a
    case Take(req) => Next(DoTake(w, req))
    case Submitting => Next(DoSubmit(w))
    case Notify => DoNotify(w)
    case Interrupt(ctl, timeout, performed, hw) =>
      if CanInterrupt(w, ctl) then DoInterrupt(w, ctl, timeout, performed, hw) else Next(w)
    case InterruptIntended(ctl, timeout, performed, hw) =>
      if CanInterrupt(w, ctl) then DoInterruptIntended(w, ctl, timeout, performed, hw) else Next(w)
    case Pop => Next(DoPop(w))
    case Release => Next(DoRelease(w))
  }

  /** The state a step leads to, with what a crashing driver had popped back on its ring. */
  function Standing(r: Result): World {
    if r.Next? then r.w else r.w.(bus := PutBack(r.w.bus, r.popped))
  }

  predicate Shaped(w: World) {
    && Shape(w.bus)
    && (w.taking.Taking? ==> InReq(w.bus.base, w.taking.buf) && |w.taking.req.data| <= BUF_SZ - 2)
    && (w.held != 0 ==> InRet(w.bus.base, w.held))
  }

  lemma StepShaped(w: World, a: Action)
    requires Shaped(w)
    ensures Shaped(Step(w, a).w) && Shaped(Standing(Step(w, a)))
  {
    hide Shaped, DoTake, DoSubmit, DoNotify, DoInterrupt, DoInterruptIntended, DoPop, DoRelease, CanInterrupt;
    match a
    case Take(req) => TakeShaped(w, req);
    case Submitting => SubmitShaped(w);
    case Notify => NotifyShaped(w);
    case Interrupt(ctl, timeout, performed, hw) =>
      if CanInterrupt(w, ctl) {
        InterruptShaped(w, ctl, timeout, performed, hw);
      }
    case InterruptIntended(ctl, timeout, performed, hw) =>
      if CanInterrupt(w, ctl) {
        InterruptShaped(w, ctl, timeout, performed, hw);
      }
    case Pop => PopShaped(w);
    case Release => ReleaseShaped(w);
  }

  lemma TakeShaped(w: World, req: Request)
    requires Shaped(w)
    ensures Shaped(DoTake(w, req))
  {
    if w.bus.rings.reqFree != [] {
      assert w.bus.rings.reqFree[0] in w.bus.rings.reqFree;
    }
  }

  lemma SubmitShaped(w: World)
    requires Shaped(w)
    ensures Shaped(DoSubmit(w))
  {
    hide Submit, Shape;
    if w.taking.Taking? {
      var t := w.taking;
      SubmitKeepsBase(w.bus, t.buf, t.req.client, t.req.target, t.req.data);
      SubmitShape(w.bus, t.buf, t.req.client, t.req.target, t.req.data);
    }
  }

  lemma NotifyShaped(w: World)
    requires Shaped(w)
    ensures Shaped(DoNotify(w).w) && Shaped(Standing(DoNotify(w)))
  {
    hide CheckBuf, Shape;
    CheckBufShape(w.bus);
    CheckBufKeepsBase(w.bus);
  }

  lemma InterruptShaped(w: World, ctl: bv32, timeout: bool, performed: nat, hw: bool)
    requires Shaped(w) && CanInterrupt(w, ctl)
    ensures var r := DoInterrupt(w, ctl, timeout, performed, hw); Shaped(r.w) && Shaped(Standing(r))
    ensures var r := DoInterruptIntended(w, ctl, timeout, performed, hw); Shaped(r.w) && Shaped(Standing(r))
  {
    hide Irq, IrqIntended, Shape, Hardware, NamesToken, AfterInterrupt;
    StartedBusy(w.bus);
    IrqShape(w.bus, ctl, timeout);
    IrqKeepsBase(w.bus, ctl, timeout);
    var p := Hardware(w, ctl, timeout, performed, hw);
    AfterBus(w, Irq(w.bus, ctl, timeout).bus, ctl, timeout, p);
    AfterBus(w, IrqIntended(w.bus, ctl, timeout).bus, ctl, timeout, p);
  }

  /** A notification settles the bus; when it crashes the driver nothing has happened but the pop. */
  lemma NotifyStands(w: World)
    requires Shaped(w)
    ensures Standing(DoNotify(w)).bus == Settled(CheckBuf(w.bus))
    ensures Standing(DoNotify(w)) == if CheckBuf(w.bus).Faulted? then w else DoNotify(w).w
    ensures Shape(Standing(DoNotify(w)).bus) && SameRegion(w.bus, Standing(DoNotify(w)).bus)
  {
    hide CheckBuf, Shape;
    CheckBufShape(w.bus);
    CheckBufKeepsBase(w.bus);
  }

  /** An interrupt settles the bus and records what the hardware did, also when the driver crashes. */
  lemma InterruptStands(w: World, ctl: bv32, timeout: bool, performed: nat, hw: bool)
    requires Shaped(w) && CanInterrupt(w, ctl)
    ensures var b := Settled(Irq(w.bus, ctl, timeout)); var p := Hardware(w, ctl, timeout, performed, hw);
      && Shape(b) && SameRegion(w.bus, b) && Shaped(AfterInterrupt(w, b, ctl, timeout, p))
      && Standing(DoInterrupt(w, ctl, timeout, performed, hw)) == AfterInterrupt(w, b, ctl, timeout, p)
    ensures var b := Settled(IrqIntended(w.bus, ctl, timeout)); var p := Hardware(w, ctl, timeout, performed, hw);
      && Shape(b) && SameRegion(w.bus, b) && Shaped(AfterInterrupt(w, b, ctl, timeout, p))
      && Standing(DoInterruptIntended(w, ctl, timeout, performed, hw)) == AfterInterrupt(w, b, ctl, timeout, p)
  {
    hide Irq, IrqIntended, Shape, Hardware, EndsRequest, NamesToken, AddressField;
    IrqShape(w.bus, ctl, timeout);
    IrqKeepsBase(w.bus, ctl, timeout);
  }

  lemma ReleaseShaped(w: World)
    requires Shaped(w)
    ensures Shaped(DoRelease(w))
  {
    hide Shape, ReleaseRet;
    if w.held != 0 {
      ReleaseShape(w.bus, w.held);
      ReleaseKeepsBase(w.bus, w.held);
    }
  }

  lemma PopShaped(w: World)
    requires Shaped(w)
    ensures Shaped(DoPop(w))
  {
    if w.bus.rings.retUsed != [] {
      assert w.bus.rings.retUsed[0] in w.bus.rings.retUsed;
    }
  }

  /** Memory and the bus's part of it are where they were. */
  predicate SameRegion(b: Bus, c: Bus) {
    c.origin == b.origin && c.base == b.base && |c.mem| == |b.mem|
  }

  lemma SubmitKeepsBase(b: Bus, p: nat, client: byte, target: byte, data: seq<byte>)
    requires Shape(b) && InReq(b.base, p) && |data| <= BUF_SZ - 2
    ensures SameRegion(b, Submit(b, p, client, target, data))
  {
  }

  lemma CheckBufKeepsBase(b: Bus)
    requires Shape(b)
    ensures SameRegion(b, CheckBuf(b).bus)
  {
    hide LoadFrom, Pack, LoadAddress;
  }

  lemma IrqKeepsBase(b: Bus, ctl: bv32, timeout: bool)
    requires Shape(b) && b.started
    ensures SameRegion(b, Irq(b, ctl, timeout).bus)
    ensures SameRegion(b, IrqIntended(b, ctl, timeout).bus)
  {
    hide LoadFrom, Pack, LoadAddress, CheckBuf, Failed;
    var b1 := Report(b, ctl, timeout);
    ReportShape(b, ctl, timeout);
    if EndsRequest(b, ctl) {
      CompleteShape(b1);
      CheckBufKeepsBase(Complete(b1));
    }
  }

  /** The bus's region never moves. */
  lemma StepKeepsBase(w: World, a: Action)
    requires Shaped(w)
    ensures SameRegion(w.bus, Step(w, a).w.bus)
  {
    hide Irq, IrqIntended, CheckBuf, Submit, ReleaseRet, HwList, AddressField, Failed, LoadTokens;
    match a
    case Submitting =>
      if w.taking.Taking? {
        SubmitKeepsBase(w.bus, w.taking.buf, w.taking.req.client, w.taking.req.target, w.taking.req.data);
      }
    case Notify => CheckBufKeepsBase(w.bus);
    case Interrupt(ctl, timeout, performed, hw) =>
      if CanInterrupt(w, ctl) {
        IrqKeepsBase(w.bus, ctl, timeout);
      }
    case InterruptIntended(ctl, timeout, performed, hw) =>
      if CanInterrupt(w, ctl) {
        IrqKeepsBase(w.bus, ctl, timeout);
      }
    case Release => ReleaseKeepsBase(w.bus, w.held);
    case _ =>
  }

  lemma ReleaseKeepsBase(b: Bus, p: nat)
    ensures SameRegion(b, ReleaseRet(b, p))
  {
  }
}
