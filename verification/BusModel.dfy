/**
 One I2C bus of the driver as a value: the four rings of its transport, its buffer region, the driver's
 state for it and its registers; and what each driver and transport operation does to that value.

 The driver and transport classes are proved against these functions, and the state machine of module
 BusRuns is built from them.
 */
module BusModel {
  import opened Tokens
  import opened Registers
  import opened Loader
  import opened RingBuffer
  import opened Memory

  /** The free and used rings of the request and the return path. */
  datatype Rings = Rings(reqFree: seq<Desc>, reqUsed: seq<Desc>, retFree: seq<Desc>, retUsed: seq<Desc>)

  /** The rings when the first `k` buffers of both pools are free and nothing is queued. */
  function FreeRings(base: nat, k: nat): Rings
    requires k <= BUF_COUNT
  {
    Rings(Pool(base, k), [], Pool(base + POOL_SZ, k), [])
  }

  /** The driver's record for a bus.  Address 0 is NULL; `reading` is the data direction `ddr`. */
  datatype DriverState = DriverState(
    currentReq: nat, currentRet: nat, reqLen: int, remaining: int, notified: bool, reading: bool)

  const IDLE := DriverState(0, 0, 0, 0, false, false)

  /** `mem` is the memory from address `origin` on, which holds the buffers of this bus, from address `base`
      on, among other things.  `started` is the START bit of the control register: the hardware owns the list. */
  datatype Bus = Bus(
    origin: nat, base: nat, rings: Rings, mem: seq<byte>, st: DriverState, addr: bv32, lists: ListRegs, started: bool)

  /** Where the two places in the driver that use a NULL pointer go wrong. */
  datatype Fault = NullReturnBuffer | NullRequest

  /** A handler ends, or faults and leaves the bus as it is then; `popped` is a request it had taken off its
      ring and not yet recorded. */
  datatype Outcome = Ok(bus: Bus) | Faulted(why: Fault, bus: Bus, popped: seq<Desc>)

  // Error codes in return buffers.
  const I2C_ERR_OK: byte := 0
  const I2C_ERR_TIMEOUT: byte := 1
  const I2C_ERR_NACK: byte := 2
  const I2C_ERR_NOREAD: byte := 3

  /** The region at `base` lies in the `size` bytes from `origin` on. */
  predicate Mapped(origin: nat, base: nat, size: nat) {
    0 < base && origin <= base && base + REGION_SZ <= origin + size
  }

  /** Descriptors, pointers and sizes are what the transport put there: free buffers have all their 512 bytes. */
  predicate Shape(b: Bus) {
    && Mapped(b.origin, b.base, |b.mem|)
    && (forall d <- b.rings.reqFree :: InReq(b.base, d.addr) && d.len == 512)
    && (forall d <- b.rings.reqUsed :: InReq(b.base, d.addr) && 2 <= d.len <= BUF_SZ)
    && (forall d <- b.rings.retFree :: InRet(b.base, d.addr) && d.len == 512)
    && (forall d <- b.rings.retUsed :: InRet(b.base, d.addr))
    && |b.rings.reqFree| <= CAPACITY && |b.rings.reqUsed| <= CAPACITY
    && |b.rings.retFree| <= CAPACITY && |b.rings.retUsed| <= CAPACITY
    && (b.st.currentReq != 0 ==> InReq(b.base, b.st.currentReq))
    && (b.st.currentRet != 0 ==> InRet(b.base, b.st.currentRet))
    && (b.st.currentReq == 0 <==> b.st.currentRet == 0)
    && 0 <= b.st.remaining <= b.st.reqLen <= BUF_SZ - 2
    && (b.st.currentReq == 0 ==> b.st.reqLen == 0)
    && (b.started ==> b.st.currentReq != 0)
  }

  /** The driver is working on a request. */
  predicate Busy(b: Bus) {
    b.st.currentReq != 0
  }

  /** A ring's enqueue: a full ring refuses. */
  function Enqueue(q: seq<Desc>, d: Desc): seq<Desc> {
    if |q| == CAPACITY then q else q + [d]
  }

  // ---------- The server's side of the transport ----------

  /** `allocReqBuf` after its size test and after taking the free buffer `p`: write header and data, queue. */
  function Submit(b: Bus, p: nat, client: byte, target: byte, data: seq<byte>): Bus
    requires Shape(b) && InReq(b.base, p) && |data| <= BUF_SZ - 2
  {
    var b1 := b.(mem := Store(b.mem, p - b.origin, [client, target] + data));
    if |b1.rings.reqUsed| == CAPACITY
    then b1.(rings := b1.rings.(reqFree := Enqueue(b1.rings.reqFree, Desc(p, BUF_SZ))))
    else b1.(rings := b1.rings.(reqUsed := b1.rings.reqUsed + [Desc(p, |data| + 2)]))
  }

  function TakeReq(b: Bus): Bus
    requires b.rings.reqFree != []
  {
    b.(rings := b.rings.(reqFree := b.rings.reqFree[1..]))
  }

  function PopRet(b: Bus): Bus
    requires b.rings.retUsed != []
  {
    b.(rings := b.rings.(retUsed := b.rings.retUsed[1..]))
  }

  function ReleaseRet(b: Bus, p: nat): Bus {
    b.(rings := b.rings.(retFree := Enqueue(b.rings.retFree, Desc(p, BUF_SZ))))
  }

  // ---------- The driver ----------

  /** The chain of the current request, and the byte behind it. */
  function CurrentCells(b: Bus): Cells
    requires Shape(b) && Busy(b)
  {
    var o := b.st.currentReq - b.origin + 2;
    b.mem[o..o + b.st.reqLen + 1]
  }

  function CurrentTarget(b: Bus): byte
    requires Shape(b) && Busy(b)
  {
    b.mem[b.st.currentReq - b.origin + 1]
  }

  datatype Loaded = Loaded(bus: Bus, ok: bool)

  /** `i2cLoadTokens`: load the next list of the current request and start the hardware on it. */
  function LoadTokens(b: Bus): Loaded
    requires Shape(b) && Busy(b)
  {
    if CurrentTarget(b) > 0x7F then Loaded(b, false) else
    var ch := Load(CurrentCells(b), b.st.reqLen - b.st.remaining, b.st.reading);
    var b1 := b.(addr := LoadAddress(b.addr, CurrentTarget(b)), lists := Pack(ch.ops),
                 st := b.st.(reading := ch.reading));
    if !ch.ok then Loaded(b1, false) else
    var left := if b.st.reqLen > ch.next then b.st.reqLen - ch.next else 0;
    Loaded(b1.(st := b1.st.(remaining := left), started := true), true)
  }

  /** The bookkeeping half of `checkBuf`: take the next request and a return buffer. */
  function Accept(b: Bus): Bus
    requires Shape(b) && b.rings.reqUsed != [] && b.rings.retFree != []
  {
    var d, r := b.rings.reqUsed[0], b.rings.retFree[0].addr;
    var o := d.addr - b.origin;
    b.(rings := b.rings.(reqUsed := b.rings.reqUsed[1..], retFree := b.rings.retFree[1..]),
       mem := Store(b.mem, r - b.origin + RET_BUF_CLIENT, [b.mem[o], b.mem[o + 1]]),
       st := DriverState(d.addr, r, d.len - 2, d.len - 2, false, b.st.reading))
  }

  /** The bus with popped requests back on their ring. */
  function PutBack(b: Bus, popped: seq<Desc>): Bus {
    b.(rings := b.rings.(reqUsed := popped + b.rings.reqUsed))
  }

  /** The bus a handler leaves, whether it ends or faults, with what it had popped back on its ring. */
  function Settled(o: Outcome): Bus {
    if o.Ok? then o.bus else PutBack(o.bus, o.popped)
  }

  /** The bus when the next request has been taken off its ring and no more. */
  function PopReq(b: Bus): Bus
    requires b.rings.reqUsed != []
  {
    b.(rings := b.rings.(reqUsed := b.rings.reqUsed[1..]))
  }

  /** `checkBuf`. */
  function CheckBuf(b: Bus): Outcome
    requires Shape(b)
  {
    if b.rings.reqUsed == [] then Ok(b.(st := b.st.(notified := false)))
    else if Busy(b) then Ok(b.(st := b.st.(notified := true)))
    else if b.rings.retFree == [] then Faulted(NullReturnBuffer, PopReq(b), [b.rings.reqUsed[0]])
    else
      AcceptShape(b);
      Ok(LoadTokens(Accept(b)).bus)
  }

  /** The token field of the control register. */
  function ErrorToken(ctl: bv32): byte {
    (ctl & 0xF0) as byte
  }

  /** What `i2cGetError` makes of the control register counts as an error. */
  predicate Failed(ctl: bv32) {
    ctl & 0x8 != 0 && ErrorToken(ctl) != 0
  }

  /** What a list's return buffer says about it. */
  function ReportedCode(ctl: bv32, timeout: bool): byte {
    if !Failed(ctl) then I2C_ERR_OK else if timeout then I2C_ERR_TIMEOUT else I2C_ERR_NACK
  }

  function ReportedToken(ctl: bv32): byte {
    if Failed(ctl) then ErrorToken(ctl) else 0
  }

  /** The first half of `i2cirq`: halt, and write error code and token into the return buffer. */
  function Report(b: Bus, ctl: bv32, timeout: bool): Bus
    requires Shape(b) && Busy(b)
  {
    b.(started := false,
       mem := Store(b.mem, b.st.currentRet - b.origin, [ReportedCode(ctl, timeout), ReportedToken(ctl)]))
  }

  /** Returns the current request to the server. */
  function Complete(b: Bus): Bus
    requires Shape(b) && Busy(b)
  {
    b.(rings := b.rings.(retUsed := Enqueue(b.rings.retUsed, Desc(b.st.currentRet, b.st.reqLen)),
                         reqFree := Enqueue(b.rings.reqFree, Desc(b.st.currentReq, BUF_SZ))),
       st := b.st.(currentReq := 0, currentRet := 0, reqLen := 0, remaining := 0),
       started := false)
  }

  /** Whether the interrupt ends the request. */
  predicate EndsRequest(b: Bus, ctl: bv32) {
    Failed(ctl) || b.st.remaining == 0
  }

  /** `i2cirq` as it is written: at the end of a request that was notified meanwhile it returns the request,
      and then loads tokens from the request pointer it has just cleared. */
  function Irq(b: Bus, ctl: bv32, timeout: bool): Outcome
    requires Shape(b) && b.started
  {
    ReportShape(b, ctl, timeout);
    var b1 := Report(b, ctl, timeout);
    if !EndsRequest(b, ctl) then Ok(LoadTokens(b1).bus)
    else if b.st.notified then Faulted(NullRequest, Complete(b1), [])
    else Ok(Complete(b1))
  }

  /** `i2cirq` as its comment describes it: at the end of a request that was notified meanwhile it
      starts on the next request.  Not what the code does. */
  function IrqIntended(b: Bus, ctl: bv32, timeout: bool): Outcome
    requires Shape(b) && b.started
  {
    ReportShape(b, ctl, timeout);
    var b1 := Report(b, ctl, timeout);
    if !EndsRequest(b, ctl) then Ok(LoadTokens(b1).bus)
    else
      CompleteShape(b1);
      if b.st.notified then CheckBuf(Complete(b1)) else Ok(Complete(b1))
  }

  // ---------- Shape is kept ----------

  lemma EnqueueIn(q: seq<Desc>, d: Desc)
    ensures forall e <- Enqueue(q, d) :: e in q || e == d
  {
  }

  lemma AcceptedPlaces(b: Bus)
    requires Shape(b) && b.rings.retFree != [] && b.rings.reqUsed != []
    ensures InRet(b.base, b.rings.retFree[0].addr) && b.rings.retFree[0].addr != 0
    ensures InReq(b.base, b.rings.reqUsed[0].addr) && 2 <= b.rings.reqUsed[0].len <= BUF_SZ
  {
    assert b.rings.retFree[0] in b.rings.retFree && b.rings.reqUsed[0] in b.rings.reqUsed;
  }

  lemma AcceptShape(b: Bus)
    requires Shape(b) && !Busy(b) && b.rings.reqUsed != [] && b.rings.retFree != []
    ensures Shape(Accept(b)) && Busy(Accept(b))
  {
    assert b.rings.reqUsed[0] in b.rings.reqUsed && b.rings.retFree[0] in b.rings.retFree;
  }

  lemma StartedBusy(b: Bus)
    requires Shape(b) && b.started
    ensures Busy(b)
  {
  }

  lemma ReportShape(b: Bus, ctl: bv32, timeout: bool)
    requires Shape(b) && Busy(b)
    ensures Shape(Report(b, ctl, timeout))
  {
  }

  lemma CompleteShape(b: Bus)
    requires Shape(b) && Busy(b)
    ensures Shape(Complete(b))
  {
    EnqueueIn(b.rings.retUsed, Desc(b.st.currentRet, b.st.reqLen));
    EnqueueIn(b.rings.reqFree, Desc(b.st.currentReq, BUF_SZ));
  }

  lemma LoadShape(b: Bus)
    requires Shape(b) && Busy(b)
    ensures Shape(LoadTokens(b).bus)
  {
    hide LoadFrom, Pack, LoadAddress;
  }

  lemma PopReqShape(b: Bus)
    requires Shape(b) && b.rings.reqUsed != []
    ensures Shape(PopReq(b)) && PutBack(PopReq(b), [b.rings.reqUsed[0]]) == b
    ensures InReq(b.base, b.rings.reqUsed[0].addr) && 2 <= b.rings.reqUsed[0].len <= BUF_SZ
  {
    assert b.rings.reqUsed[0] in b.rings.reqUsed;
    assert [b.rings.reqUsed[0]] + b.rings.reqUsed[1..] == b.rings.reqUsed;
  }

  lemma CheckBufShape(b: Bus)
    requires Shape(b)
    ensures Shape(CheckBuf(b).bus) && Shape(Settled(CheckBuf(b)))
    ensures Settled(CheckBuf(b)) == if CheckBuf(b).Ok? then CheckBuf(b).bus else b
  {
    hide LoadTokens, Accept;
    if b.rings.reqUsed != [] && !Busy(b) {
      if b.rings.retFree != [] {
        AcceptShape(b);
        LoadShape(Accept(b));
      } else {
        PopReqShape(b);
      }
    }
  }

  lemma IrqShape(b: Bus, ctl: bv32, timeout: bool)
    requires Shape(b) && b.started
    ensures Shape(Irq(b, ctl, timeout).bus) && Shape(Settled(Irq(b, ctl, timeout)))
    ensures Shape(IrqIntended(b, ctl, timeout).bus) && Shape(Settled(IrqIntended(b, ctl, timeout)))
  {
    hide Complete, LoadTokens, CheckBuf;
    ReportShape(b, ctl, timeout);
    var b1 := Report(b, ctl, timeout);
    if EndsRequest(b, ctl) {
      CompleteShape(b1);
      CheckBufShape(Complete(b1));
    } else {
      LoadShape(b1);
    }
  }

  /** How an interrupt settles: with the next list, or with the request returned, after which the intended
      handler may also look for the next one. */
  lemma IrqEnds(b: Bus, ctl: bv32, timeout: bool)
    requires Shape(b) && b.started
    ensures Shape(Report(b, ctl, timeout)) && Shape(Complete(Report(b, ctl, timeout)))
    ensures var b1 := Report(b, ctl, timeout); var c := Complete(b1);
      && (!EndsRequest(b, ctl) ==> Settled(Irq(b, ctl, timeout)) == LoadTokens(b1).bus)
      && (!EndsRequest(b, ctl) ==> IrqIntended(b, ctl, timeout) == Irq(b, ctl, timeout))
      && (EndsRequest(b, ctl) ==> Settled(Irq(b, ctl, timeout)) == c)
      && (EndsRequest(b, ctl) ==>
          Settled(IrqIntended(b, ctl, timeout)) == if b.st.notified then Settled(CheckBuf(c)) else c)
  {
    hide Complete, LoadTokens, CheckBuf, Failed, Shape, ReportedCode, ReportedToken;
    StartedBusy(b);
    ReportShape(b, ctl, timeout);
    CompleteShape(Report(b, ctl, timeout));
    var c := Complete(Report(b, ctl, timeout));
    assert [] + c.rings.reqUsed == c.rings.reqUsed;
  }

  lemma SubmitShape(b: Bus, p: nat, client: byte, target: byte, data: seq<byte>)
    requires Shape(b) && InReq(b.base, p) && |data| <= BUF_SZ - 2
    ensures Shape(Submit(b, p, client, target, data))
  {
    EnqueueIn(b.rings.reqFree, Desc(p, BUF_SZ));
  }

  lemma ReleaseShape(b: Bus, p: nat)
    requires Shape(b) && InRet(b.base, p)
    ensures Shape(ReleaseRet(b, p))
  {
    EnqueueIn(b.rings.retFree, Desc(p, BUF_SZ));
  }
}
