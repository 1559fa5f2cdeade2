/**
 Conservation of buffers: whatever happens on a bus, its 511 request buffers and its 511 return buffers
 are each in exactly one place, and so no ring ever overflows.
 */
module Conservation {
  import opened Registers
  import opened Loader
  import opened RingBuffer
  import opened Memory
  import opened BusModel
  import opened BusRuns

  /** The buffer at address `p`, or none for NULL. */
  function One(p: nat): multiset<nat> {
    if p == 0 then multiset{} else multiset{p}
  }

  function TakenBag(t: Taking): multiset<nat> {
    if t.Nothing? then multiset{} else multiset{t.buf}
  }

  /** The request buffers: free, queued, being filled by the server, being worked on by the driver. */
  function ReqBag(w: World): multiset<nat> {
    Bag(w.bus.rings.reqFree) + Bag(w.bus.rings.reqUsed) + TakenBag(w.taking) + One(w.bus.st.currentReq)
  }

  /** The return buffers: free, queued, being read by the server, being filled by the driver. */
  function RetBag(w: World): multiset<nat> {
    Bag(w.bus.rings.retFree) + Bag(w.bus.rings.retUsed) + One(w.held) + One(w.bus.st.currentRet)
  }

  /** Both pools are complete and every buffer is in exactly one place. */
  predicate Conserved(w: World) {
    && ReqBag(w) == Bag(Pool(w.bus.base, BUF_COUNT))
    && RetBag(w) == Bag(Pool(w.bus.base + POOL_SZ, BUF_COUNT))
  }

  /** The pool counts add up, so a ring that is about to receive a buffer holds at most 510. */
  lemma NoRingOverflows(w: World)
    requires Conserved(w)
    ensures w.taking.Taking? ==> |w.bus.rings.reqUsed| < CAPACITY && |w.bus.rings.reqFree| < CAPACITY
    ensures Busy(w.bus) ==> |w.bus.rings.reqFree| < CAPACITY && |w.bus.rings.reqUsed| < CAPACITY
    ensures w.bus.st.currentRet != 0 ==> |w.bus.rings.retUsed| < CAPACITY && |w.bus.rings.retFree| < CAPACITY
    ensures w.held != 0 ==> |w.bus.rings.retFree| < CAPACITY && |w.bus.rings.retUsed| < CAPACITY
    ensures |w.bus.rings.reqUsed| + |w.bus.rings.reqFree| <= BUF_COUNT
    ensures |w.bus.rings.retFree| + |w.bus.rings.retUsed| + (if w.held == 0 then 0 else 1)
            + (if w.bus.st.currentRet == 0 then 0 else 1) == BUF_COUNT
  {
    hide Bag;
    assert |ReqBag(w)| == BUF_COUNT && |RetBag(w)| == BUF_COUNT;
  }

  /** Moving an element from one of four places to another keeps the total. */
  lemma Moved<T>(a: multiset<T>, b: multiset<T>, c: multiset<T>, d: multiset<T>, x: multiset<T>)
    ensures (a + x) + b + c + d == a + (b + x) + c + d
    ensures (a + x) + b + c + d == a + b + (c + x) + d
    ensures (a + x) + b + c + d == a + b + c + (d + x)
  {
  }

  lemma NoneAdded<T>(x: multiset<T>)
    ensures multiset{} + x == x && x + multiset{} == x
  {
  }

  lemma EnqueueBag(q: seq<Desc>, d: Desc)
    requires |q| < CAPACITY
    ensures Bag(Enqueue(q, d)) == Bag(q) + multiset{d.addr}
  {
    BagSnoc(q, d);
  }

  /** Loading a list touches neither rings nor buffers. */
  lemma LoadKeeps(b: Bus)
    requires Shape(b) && Busy(b)
    ensures var r := LoadTokens(b).bus;
      && r.rings == b.rings && r.mem == b.mem && r.base == b.base && r.origin == b.origin
      && r.st == b.st.(remaining := r.st.remaining, reading := r.st.reading)
  {
    hide LoadFrom, Pack, LoadAddress;
  }

  lemma AcceptReq(w: World)
    requires Shaped(w) && !Busy(w.bus) && w.bus.rings.reqUsed != [] && w.bus.rings.retFree != []
    ensures ReqBag(w.(bus := Accept(w.bus))) == ReqBag(w)
  {
    AcceptShape(w.bus);
    var r := w.bus.rings;
    assert r.reqUsed[0] in r.reqUsed;
    var d := r.reqUsed[0].addr;
    hide Bag, Shape, Store;
    BagTail(r.reqUsed);
    Moved(Bag(r.reqFree), Bag(r.reqUsed[1..]), TakenBag(w.taking), multiset{}, One(d));
    NoneAdded(One(d));
    var v := w.(bus := Accept(w.bus));
    assert v.bus.st.currentReq == d && v.bus.rings.reqUsed == r.reqUsed[1..] && v.bus.rings.reqFree == r.reqFree;
  }

  lemma AcceptRet(w: World)
    requires Shaped(w) && !Busy(w.bus) && w.bus.rings.reqUsed != [] && w.bus.rings.retFree != []
    ensures RetBag(w.(bus := Accept(w.bus))) == RetBag(w)
  {
    AcceptShape(w.bus);
    var r := w.bus.rings;
    assert r.retFree[0] in r.retFree && w.bus.st.currentRet == 0;
    var d := r.retFree[0].addr;
    hide Bag, Shape, Store;
    BagTail(r.retFree);
    Moved(Bag(r.retFree[1..]), Bag(r.retUsed), One(w.held), multiset{}, One(d));
    NoneAdded(One(d));
    var v := w.(bus := Accept(w.bus));
    assert v.bus.st.currentRet == d && v.bus.rings.retFree == r.retFree[1..] && v.bus.rings.retUsed == r.retUsed;
  }

  lemma AcceptConserves(w: World)
    requires Shaped(w) && Conserved(w) && !Busy(w.bus)
    requires w.bus.rings.reqUsed != [] && w.bus.rings.retFree != []
    ensures Conserved(w.(bus := Accept(w.bus)))
  {
    hide Bag, Shape, Pool, Store, ReqBag, RetBag;
    AcceptReq(w);
    AcceptRet(w);
  }

  lemma CheckBufConserves(w: World, b: Bus)
    requires Shaped(w) && Conserved(w) && b == Settled(CheckBuf(w.bus))
    ensures Conserved(w.(bus := b))
  {
    hide Conserved, LoadTokens, Accept, Shape, Settled;
    CheckBufShape(w.bus);
    var r := w.bus.rings;
    if CheckBuf(w.bus).Faulted? {
      assert w.(bus := b) == w;
    } else if r.reqUsed != [] && !Busy(w.bus) {
      AcceptConserves(w);
      AcceptShape(w.bus);
      LoadKeeps(Accept(w.bus));
      SameRings(w.(bus := Accept(w.bus)), w.(bus := b));
    } else {
      SameRings(w, w.(bus := b));
    }
  }

  lemma CompleteConserves(w: World, ctl: bv32, timeout: bool)
    requires Shaped(w) && Conserved(w) && Busy(w.bus)
    ensures Shape(Report(w.bus, ctl, timeout))
    ensures Conserved(w.(bus := Complete(Report(w.bus, ctl, timeout))))
  {
    hide Bag, Failed, ErrorToken, Pool;
    ReportShape(w.bus, ctl, timeout);
    NoRingOverflows(w);
    var r := w.bus.rings;
    var x, y := One(w.bus.st.currentReq), One(w.bus.st.currentRet);
    NoneAdded(x);
    NoneAdded(y);
    Moved(Bag(r.reqFree), Bag(r.reqUsed), TakenBag(w.taking), multiset{}, x);
    Moved(Bag(r.retFree), Bag(r.retUsed), One(w.held), multiset{}, y);
    EnqueueBag(w.bus.rings.retUsed, Desc(w.bus.st.currentRet, w.bus.st.reqLen));
    EnqueueBag(w.bus.rings.reqFree, Desc(w.bus.st.currentReq, BUF_SZ));
  }

  lemma IrqConserves(w: World, ctl: bv32, timeout: bool, b: Bus)
    requires Shaped(w) && Conserved(w) && w.bus.started
    requires b == Settled(Irq(w.bus, ctl, timeout)) || b == Settled(IrqIntended(w.bus, ctl, timeout))
    ensures Conserved(w.(bus := b))
  {
    hide Bag, LoadTokens, Complete, CheckBuf, Failed, ErrorToken;
    IrqEnds(w.bus, ctl, timeout);
    var b1 := Report(w.bus, ctl, timeout);
    ReportShape(w.bus, ctl, timeout);
    if EndsRequest(w.bus, ctl) {
      CompleteConserves(w, ctl, timeout);
      CompleteShape(b1);
      var v := w.(bus := Complete(b1));
      if b != Complete(b1) {
        CompleteKeepsBase(b1);
        CheckBufConserves(v, b);
      }
    } else {
      LoadKeeps(b1);
    }
  }

  lemma CompleteKeepsBase(b: Bus)
    requires Shape(b) && Busy(b)
    ensures SameRegion(b, Complete(b))
  {
  }

  lemma SubmitConserves(w: World)
    requires Shaped(w) && Conserved(w) && w.taking.Taking?
    ensures var t := w.taking;
      Conserved(w.(taking := Nothing, bus := Submit(w.bus, t.buf, t.req.client, t.req.target, t.req.data)))
  {
    hide Bag, Store, Shape, Pool;
    NoRingOverflows(w);
    var r := w.bus.rings;
    BagSnoc(r.reqUsed, Desc(w.taking.buf, |w.taking.req.data| + 2));
    var x := TakenBag(w.taking);
    NoneAdded(x);
    Moved(Bag(r.reqFree), Bag(r.reqUsed), multiset{}, One(w.bus.st.currentReq), x);
  }

  lemma TakeConserves(w: World, req: Request)
    requires Conserved(w) && w.taking.Nothing? && w.bus.rings.reqFree != []
    ensures Conserved(w.(taking := Taking(w.bus.rings.reqFree[0].addr, req), bus := TakeReq(w.bus)))
  {
    hide Bag;
    BagTail(w.bus.rings.reqFree);
  }

  lemma PopConserves(w: World)
    requires Shaped(w) && Conserved(w) && w.held == 0 && w.bus.rings.retUsed != []
    ensures Conserved(w.(held := w.bus.rings.retUsed[0].addr, bus := PopRet(w.bus)))
  {
    hide Bag;
    BagTail(w.bus.rings.retUsed);
    assert w.bus.rings.retUsed[0] in w.bus.rings.retUsed;
  }

  lemma ReleaseConserves(w: World)
    requires Conserved(w) && w.held != 0
    ensures Conserved(w.(held := 0, bus := ReleaseRet(w.bus, w.held)))
  {
    hide Bag;
    NoRingOverflows(w);
    EnqueueBag(w.bus.rings.retFree, Desc(w.held, BUF_SZ));
  }

  lemma SameRings(w: World, v: World)
    requires Conserved(w) && v.bus.rings == w.bus.rings && v.bus.base == w.bus.base
    requires v.bus.st.currentReq == w.bus.st.currentReq && v.bus.st.currentRet == w.bus.st.currentRet
    requires v.taking == w.taking && v.held == w.held
    ensures Conserved(v)
  {
    hide Bag, Pool;
    assert ReqBag(v) == ReqBag(w) && RetBag(v) == RetBag(w);
  }

  /** The record of the past has no say in conservation. */
  lemma SamePlaces(w: World, v: World)
    requires Conserved(w) && v.bus == w.bus && v.taking == w.taking && v.held == w.held
    ensures Conserved(v)
  {
    hide Bag, Pool;
    assert ReqBag(v) == ReqBag(w) && RetBag(v) == RetBag(w);
  }

  lemma InterruptConserves(w: World, ctl: bv32, timeout: bool, performed: nat, hw: bool)
    requires Shaped(w) && Conserved(w) && CanInterrupt(w, ctl)
    ensures Conserved(Standing(DoInterrupt(w, ctl, timeout, performed, hw)))
    ensures Conserved(Standing(DoInterruptIntended(w, ctl, timeout, performed, hw)))
  {
    hide Conserved, Irq, IrqIntended, Hardware, Settled, ErrorToken, Shape, DoInterrupt, DoInterruptIntended;
    InterruptStands(w, ctl, timeout, performed, hw);
    IrqConserves(w, ctl, timeout, Settled(Irq(w.bus, ctl, timeout)));
    IrqConserves(w, ctl, timeout, Settled(IrqIntended(w.bus, ctl, timeout)));
    hide EndsRequest, AddressField, Current;
    SamePlaces(w.(bus := Settled(Irq(w.bus, ctl, timeout))), Standing(DoInterrupt(w, ctl, timeout, performed, hw)));
    SamePlaces(w.(bus := Settled(IrqIntended(w.bus, ctl, timeout))),
      Standing(DoInterruptIntended(w, ctl, timeout, performed, hw)));
  }

  /** Every step of the server, the driver and the hardware conserves the buffers. */
  lemma StepConserves(w: World, a: Action)
    requires Shaped(w) && Conserved(w)
    ensures Conserved(Standing(Step(w, a)))
  {
    hide Conserved, Submit, CheckBuf, DoInterrupt, DoInterruptIntended, ErrorToken, TakeReq, PopRet, ReleaseRet, Shape;
    var n := Standing(Step(w, a));
    match a
    case Take(req) =>
      if w.taking.Nothing? && w.bus.rings.reqFree != [] {
        TakeConserves(w, req);
      }
    case Submitting =>
      if w.taking.Taking? {
        SubmitConserves(w);
        var t := w.taking;
        SamePlaces(w.(taking := Nothing, bus := Submit(w.bus, t.buf, t.req.client, t.req.target, t.req.data)), n);
      }
    case Notify =>
      CheckBufConserves(w, Settled(CheckBuf(w.bus)));
      SamePlaces(w.(bus := Settled(CheckBuf(w.bus))), n);
    case Interrupt(ctl, timeout, performed, hw) =>
      if CanInterrupt(w, ctl) {
        InterruptConserves(w, ctl, timeout, performed, hw);
      }
    case InterruptIntended(ctl, timeout, performed, hw) =>
      if CanInterrupt(w, ctl) {
        InterruptConserves(w, ctl, timeout, performed, hw);
      }
    case Pop =>
      if w.held == 0 && w.bus.rings.retUsed != [] {
        PopConserves(w);
        SamePlaces(w.(held := w.bus.rings.retUsed[0].addr, bus := PopRet(w.bus)), n);
      }
    case Release =>
      if w.held != 0 {
        ReleaseConserves(w);
      }
  }
}
