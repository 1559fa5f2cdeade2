/**
 The properties of all runs of one bus, from any initial state and under any schedule of server, driver
 and hardware steps.
 */
module BusProperties {
  import opened Tokens
  import opened Registers
  import opened RingBuffer
  import opened Memory
  import opened BusModel
  import opened BusRuns
  import opened Conservation
  import opened Ordering
  import opened Execution
  import opened Outcomes
  import opened Progress
  import opened Invariant

  // ---------- Exactly once, in order ----------

  /** Taking popped requests off the ring leaves their bytes and everything else as it was. */
  lemma PutBackFacts(b: Bus, popped: seq<Desc>)
    requires Shape(b) && Shape(PutBack(b, popped))
    ensures forall d <- popped :: InReq(b.base, d.addr) && 2 <= d.len <= BUF_SZ
    ensures Waiting(PutBack(b, popped)) == Popped(b, popped) + Waiting(b)
    ensures Current(PutBack(b, popped)) == Current(b) && Returned(PutBack(b, popped)) == Returned(b)
  {
    hide Buffer;
    var q := popped + b.rings.reqUsed;
    forall d <- popped ensures InReq(b.base, d.addr) && 2 <= d.len <= BUF_SZ {
      assert d in q;
    }
  }

  /** Wherever a run stands, also after a crash: the submitted requests are the finished ones, then the one
      in progress, then the one a crashed driver had popped, then the queued ones, each with its data intact;
      and the headers handed back or waiting to be are those of the finished ones. */
  lemma ExactlyOnceInOrder(w0: World, acts: seq<Action>, w: World, popped: seq<Desc>)
    requires StandsAt(w0, acts, w, popped)
    ensures Shape(w.bus) && forall d <- popped :: InReq(w.bus.base, d.addr) && 2 <= d.len <= BUF_SZ
    ensures w.past.submitted == Requests(w.past.done) + Current(w.bus) + Popped(w.bus, popped) + Waiting(w.bus)
    ensures Headers(w.past.done) == w.past.collected + Returned(w.bus)
  {
    hide Run, Conserved, Executed, Progressing, Initial, Shape, Current, Waiting, Popped, Returned, Requests, Headers;
    StandsCore(w0, acts, w, popped);
    PutBackFacts(w.bus, popped);
    var x := Requests(w.past.done) + Current(w.bus);
    assert x + (Popped(w.bus, popped) + Waiting(w.bus)) == x + Popped(w.bus, popped) + Waiting(w.bus);
  }

  // ---------- Conservation ----------

  /** No run moves a bus's buffers. */
  lemma {:induction false} RunKeepsBase(w: World, acts: seq<Action>)
    requires Shaped(w)
    ensures SameRegion(w.bus, Run(w, acts).w.bus)
    decreases |acts|
  {
    hide Step, Shaped;
    if acts != [] {
      StepKeepsBase(w, acts[0]);
      var n := Act(w, acts[0]);
      if n.Next? {
        RunKeepsBase(n.w, acts[1..]);
      }
    }
  }

  /** Wherever a run stands, also after a crash, each request and each return buffer the bus was given is in
      exactly one place, among its own kind, and no other address is anywhere. */
  lemma EachBufferOnce(w0: World, acts: seq<Action>, w: World, popped: seq<Desc>, p: nat)
    requires StandsAt(w0, acts, w, popped)
    ensures (ReqBag(w) + Bag(popped))[p] == if InReq(w0.bus.base, p) then 1 else 0
    ensures RetBag(w)[p] == if InRet(w0.bus.base, p) then 1 else 0
  {
    hide Run, Executed, Ordered, Progressing, Shape, Initial, Conserved, ReqBag, RetBag, Bag;
    StandsCore(w0, acts, w, popped);
    InitialInv(w0);
    RunKeepsBase(w0, acts);
    ConservedOnce(w, popped, p);
  }

  lemma ConservedOnce(w: World, popped: seq<Desc>, p: nat)
    requires Conserved(w.(bus := PutBack(w.bus, popped)))
    ensures (ReqBag(w) + Bag(popped))[p] == if InReq(w.bus.base, p) then 1 else 0
    ensures RetBag(w)[p] == if InRet(w.bus.base, p) then 1 else 0
  {
    hide Bag, Pool, ReqBag, RetBag, Conserved, InPool, PutBack;
    ConservedSums(w, popped);
    PoolOnce(w.bus.base, p);
    PoolOnce(w.bus.base + POOL_SZ, p);
  }

  lemma ConservedSums(w: World, popped: seq<Desc>)
    requires Conserved(w.(bus := PutBack(w.bus, popped)))
    ensures ReqBag(w) + Bag(popped) == Bag(Pool(w.bus.base, BUF_COUNT))
    ensures RetBag(w) == Bag(Pool(w.bus.base + POOL_SZ, BUF_COUNT))
  {
    hide Bag, Pool, ReqBag, RetBag;
    BagsPutBack(w, w.(bus := PutBack(w.bus, popped)), popped);
  }

  lemma BagsPutBack(w: World, v: World, popped: seq<Desc>)
    requires v == w.(bus := PutBack(w.bus, popped))
    ensures ReqBag(v) == ReqBag(w) + Bag(popped) && RetBag(v) == RetBag(w)
  {
    hide Bag, TakenBag, One;
    var r := w.bus.rings;
    BagConcat(popped, r.reqUsed);
    MovePopped(Bag(r.reqFree), Bag(popped), Bag(r.reqUsed), TakenBag(w.taking), One(w.bus.st.currentReq));
  }

  lemma MovePopped(a: multiset<nat>, e: multiset<nat>, b: multiset<nat>, c: multiset<nat>, d: multiset<nat>)
    ensures a + (e + b) + c + d == a + b + c + d + e
  {
  }

  /** After initialisation no enqueue of the transport is ever refused: submitting, returning and
      releasing all find room, so the rollback in `allocReqBuf` is never taken.  A crash changes nothing. */
  lemma NoEnqueueFails(w0: World, acts: seq<Action>, w: World, popped: seq<Desc>)
    requires StandsAt(w0, acts, w, popped)
    ensures w.taking.Taking? ==> |w.bus.rings.reqUsed| < CAPACITY
    ensures Busy(w.bus) ==> |w.bus.rings.retUsed| < CAPACITY && |w.bus.rings.reqFree| < CAPACITY
    ensures w.held != 0 ==> |w.bus.rings.retFree| < CAPACITY
  {
    hide Run, Executed, Ordered, Progressing, Conserved, ReqBag, RetBag, Initial;
    StandsCore(w0, acts, w, popped);
    var s := w.(bus := PutBack(w.bus, popped));
    NoRingOverflows(s);
    StandsBusy(w, s);
  }

  lemma StandsBusy(w: World, s: World)
    requires Shaped(s) && s.bus.st == w.bus.st
    ensures Busy(w.bus) ==> s.bus.st.currentRet != 0 && Busy(s.bus)
  {
  }

  // ---------- Credit ----------

  /** Requests submitted whose return buffer the server has not released. */
  function Outstanding(w: World): int {
    |w.past.submitted| - (|w.past.collected| - if w.held == 0 then 0 else 1)
  }

  lemma OutstandingCount(w: World)
    requires Inv(w)
    ensures Outstanding(w) == |w.bus.rings.reqUsed| + (if Busy(w.bus) then 1 else 0) + |w.bus.rings.retUsed|
            + (if w.held == 0 then 0 else 1)
    ensures |w.bus.rings.retFree| + |w.bus.rings.retUsed| + (if w.held == 0 then 0 else 1)
            + (if Busy(w.bus) then 1 else 0) == BUF_COUNT
  {
    hide Executed, Conserved, DeferralSound, RequestAt, HeaderAt;
    NoRingOverflows(w);
  }

  /** An idle driver with work to do finds no return buffer exactly when 511 of them are waiting for the
      server or held by it. */
  lemma ReturnBufferMissingExactly(w0: World, acts: seq<Action>, w: World)
    requires Reaches(w0, acts, w)
    ensures Shape(w.bus)
    ensures CheckBuf(w.bus).Faulted? <==>
      !Busy(w.bus) && w.bus.rings.reqUsed != [] && Outstanding(w) - |w.bus.rings.reqUsed| == 511
  {
    hide Run, Executed, Ordered, DeferralSound, Conserved, LoadTokens, Accept, Outstanding;
    ReachesInv(w0, acts, w);
    OutstandingCount(w);
  }

  /** With at most 511 requests outstanding no step runs out of return buffers. */
  lemma CreditStep(w: World, a: Action)
    requires Inv(w) && Outstanding(w) <= 511
    ensures !Crashes(Act(w, a), NullReturnBuffer)
  {
    hide Executed, Ordered, DeferralSound, Conserved, LoadTokens, Accept, Outstanding, Hardware, Failed, NamesToken,
      Store,
         AfterInterrupt, HeaderAt;
    OutstandingCount(w);
    match a
    case InterruptIntended(ctl, timeout, performed, hw) =>
      if CanInterrupt(w, ctl) {
        ReportShape(w.bus, ctl, timeout);
        ReportKeeps(w.bus, ctl, timeout);
        CompleteShape(Report(w.bus, ctl, timeout));
      }
    case _ =>
  }

  /** Credit bound: as long as the server never lets more than 511 requests be outstanding, no run ever
      writes through a missing return buffer. */
  lemma {:induction false} CreditBound(w: World, acts: seq<Action>)
    requires Inv(w)
    requires forall k :: 0 <= k <= |acts| ==>
      var r := Run(w, acts[..k]); r.Next? ==> Outstanding(r.w) <= 511
    ensures !Crashes(Run(w, acts), NullReturnBuffer)
    decreases |acts|
  {
    hide Kept, Shaped, Outstanding, Run, Act;
    if acts == [] {
      RunNothing(w);
    } else {
      RunNothing(w);
      assert acts[..0] == [];
      CreditStep(w, acts[0]);
      RunFirst(w, acts, |acts| - 1);
      assert acts[1..][..|acts| - 1] == acts[1..] && acts[..|acts|] == acts;
      var n := Act(w, acts[0]);
      if n.Next? {
        forall k | 0 <= k <= |acts| - 1
          ensures var r := Run(n.w, acts[1..][..k]); r.Next? ==> Outstanding(r.w) <= 511
        {
          RunFirst(w, acts, k);
        }
        ActInv(w, acts[0]);
        CreditBound(n.w, acts[1..]);
      }
    }
  }

  // ---------- Meaning over runs ----------

  /** Wherever a run stands, a well-formed request that was returned as a success did on the bus exactly what it
      means if and only if no timeout cut a list of it short; one returned as failed did a beginning of that, if
      none did. */
  lemma FinishedRequestsMean(w0: World, acts: seq<Action>, w: World, popped: seq<Desc>, e: Done)
    requires StandsAt(w0, acts, w, popped) && e in w.past.done && RequestOk(e.req.data)
    ensures !e.Failed() ==> (e.events == Meaning(e.req.data, e.sent, false) <==> !e.cut)
    ensures e.Failed() && !e.cut ==> e.events <= Meaning(e.req.data, e.sent, false)
  {
    hide Run, Meaning, RequestOk, DoneOk;
    FinishedOk(w0, acts, w, popped, e);
    WellFormedOutcome(e);
  }

  /** A request of known tokens, not cut short, that was returned as a success did exactly what it means if and
      only if its bytes and the directions it started with say that it keeps its meaning. */
  lemma FinishedKnownMean(w0: World, acts: seq<Action>, w: World, popped: seq<Desc>, e: Done)
    requires StandsAt(w0, acts, w, popped) && e in w.past.done && KnownChain(e.req.data, e.reading) && !e.cut
    ensures !e.Failed() ==> (e.events == Meaning(e.req.data, e.sent, e.reading) <==> Keeps(e.req.data, e.reading, e.hw))
    ensures e.Failed() && Keeps(e.req.data, e.reading, e.hw) ==> e.events <= Meaning(e.req.data, e.sent, e.reading)
  {
    hide Run, Meaning, Keeps, KnownChain, DoneOk;
    FinishedOk(w0, acts, w, popped, e);
    KnownOutcome(e);
  }

  lemma FinishedOk(w0: World, acts: seq<Action>, w: World, popped: seq<Desc>, e: Done)
    requires StandsAt(w0, acts, w, popped) && e in w.past.done
    ensures DoneOk(e)
  {
    hide Run, Conserved, Ordered, Executing, Addressing, SentOk, DoneOk, Shape, Progressing, Initial;
    StandsCore(w0, acts, w, popped);
  }

  /** No interrupt of the schedule is a timeout that reports no error. */
  predicate NoSilentTimeouts(acts: seq<Action>) {
    forall a <- acts :: (a.Interrupt? || a.InterruptIntended?) && !Failed(a.ctl) ==> !a.timeout
  }

  /** From `w` to `v` requests have only been added to the finished ones, none of them cut short. */
  predicate AddedUncut(w: World, v: World) {
    && |w.past.done| <= |v.past.done| && v.past.done[..|w.past.done|] == w.past.done
    && forall i :: |w.past.done| <= i < |v.past.done| ==> !v.past.done[i].cut
  }

  /** Then no request is cut short. */
  lemma {:induction false} NothingCut(w: World, acts: seq<Action>)
    requires Shaped(w) && !w.past.cut && NoSilentTimeouts(acts)
    ensures var v := Run(w, acts).w; !v.past.cut && AddedUncut(w, v)
    decreases |acts|
  {
    hide Shaped, Act;
    if acts != [] {
      assert acts[0] in acts;
      StepUncut(w, acts[0]);
      var n := Act(w, acts[0]);
      if n.Next? {
        NothingCut(n.w, acts[1..]);
        var v := Run(n.w, acts[1..]).w;
        assert v.past.done[..|w.past.done|] == v.past.done[..|n.w.past.done|][..|w.past.done|];
        assert forall i | |w.past.done| <= i < |n.w.past.done| :: v.past.done[i] == v.past.done[..|n.w.past.done|][i];
      }
    }
  }

  lemma StepUncut(w: World, a: Action)
    requires Shaped(w) && !w.past.cut
    requires (a.Interrupt? || a.InterruptIntended?) && !Failed(a.ctl) ==> !a.timeout
    ensures var v := Act(w, a).w; !v.past.cut && AddedUncut(w, v)
  {
    hide Shape, Submit, CheckBuf, DoInterrupt, DoInterruptIntended, HeaderAt, NamesToken, Failed;
    match a
    case Interrupt(ctl, timeout, performed, hw) =>
      if CanInterrupt(w, ctl) { InterruptUncut(w, ctl, timeout, performed, hw); }
    case InterruptIntended(ctl, timeout, performed, hw) =>
      if CanInterrupt(w, ctl) { InterruptUncut(w, ctl, timeout, performed, hw); }
    case _ =>
  }

  lemma InterruptUncut(w: World, ctl: bv32, timeout: bool, performed: nat, hw: bool)
    requires Shaped(w) && CanInterrupt(w, ctl) && !w.past.cut && (!Failed(ctl) ==> !timeout)
    ensures var v := DoInterrupt(w, ctl, timeout, performed, hw).w; !v.past.cut && AddedUncut(w, v)
    ensures var v := DoInterruptIntended(w, ctl, timeout, performed, hw).w; !v.past.cut && AddedUncut(w, v)
  {
    hide Shape, Irq, IrqIntended, NamesToken, AfterInterrupt, Hardware, AddedUncut;
    StartedBusy(w.bus);
    IrqShape(w.bus, ctl, timeout);
    var p := Hardware(w, ctl, timeout, performed, hw);
    assert !p.cut by { HardwareUncut(w, ctl, timeout, performed, hw); }
    AfterUncut(w, Irq(w.bus, ctl, timeout).bus, ctl, timeout, p);
    AfterUncut(w, IrqIntended(w.bus, ctl, timeout).bus, ctl, timeout, p);
  }

  lemma HardwareUncut(w: World, ctl: bv32, timeout: bool, performed: nat, hw: bool)
    requires !Failed(ctl) ==> !timeout
    ensures !Hardware(w, ctl, timeout, performed, hw).cut
  {
    hide Failed, AddressField;
  }

  lemma AfterUncut(w: World, b: Bus, ctl: bv32, timeout: bool, p: Work)
    requires Shape(w.bus) && Busy(w.bus) && Shape(b) && !p.cut && !w.past.cut
    ensures var v := AfterInterrupt(w, b, ctl, timeout, p); !v.past.cut && AddedUncut(w, v)
  {
    hide Shape, EndsRequest, AddressField, Current;
  }

  /** End to end: wherever a run stands, also after a crash, the k-th answer the server collects is for the k-th
      request submitted and carries its client, its address and the size of its chain.  Its error code is 0 when
      the interrupt that ended the request showed no error, else 1 for a timeout and 2 otherwise; its token is
      bits 4 to 7 of the control register then, and 0 on success.  If it says success and the chain is
      well-formed, the bus saw exactly what the request means if and only if no timeout without an error cut a
      list of it short; if it says failure, a beginning of that, if none did. */
  lemma AnswersTrue(w0: World, acts: seq<Action>, w: World, popped: seq<Desc>, k: nat)
    requires StandsAt(w0, acts, w, popped) && k < |w.past.collected|
    ensures k < |w.past.done| && k < |w.past.submitted|
    ensures var answer, e, req := w.past.collected[k], w.past.done[k], w.past.submitted[k];
      var meaning := Meaning(req.data, e.sent, false);
      && e.req == req
      && answer.client == req.client && answer.target == req.target && answer.size == |req.data|
      && (answer.code == 0 <==> e.ctl & 0x8 == 0 || e.ctl & 0xF0 == 0)
      && (answer.code != 0 ==> answer.code == if e.timeout then 1 else 2)
      && answer.token == (if answer.code == 0 then 0 else (e.ctl & 0xF0) as byte)
      && (RequestOk(req.data) ==>
          if answer.code != 0 then !e.cut ==> e.events <= meaning else e.events == meaning <==> !e.cut)
  {
    hide Run, Initial, RequestOk, Meaning, Returned, Current, Waiting, Popped, Shape;
    ExactlyOnceInOrder(w0, acts, w, popped);
    var done := w.past.done;
    assert Headers(done)[k] == w.past.collected[k];
    assert Requests(done)[k] == w.past.submitted[k];
    assert done[k] in done;
    if RequestOk(done[k].req.data) {
      FinishedRequestsMean(w0, acts, w, popped, done[k]);
    }
  }

  lemma {:induction false} RunKeepsTop(w: World, acts: seq<Action>)
    requires Shaped(w)
    ensures Run(w, acts).w.top == w.top
    decreases |acts|
  {
    hide Shaped, Act;
    if acts != [] {
      StepKeepsTop(w, acts[0]);
      var n := Act(w, acts[0]);
      if n.Next? {
        RunKeepsTop(n.w, acts[1..]);
      }
    }
  }

  lemma StepKeepsTop(w: World, a: Action)
    requires Shaped(w)
    ensures Act(w, a).w.top == w.top
  {
    hide Shape, Submit, CheckBuf, Irq, IrqIntended, Hardware, HeaderAt, NamesToken, AddressField, EndsRequest, Current;
  }

  /** In every run, the address sent for the k-th finished request is the one it asked for exactly when
      that address has its top bit set, or bit 7 of the address register was clear at first and no earlier
      request had an address of 0x40 or more. */
  lemma AddressSentOverRuns(w0: World, acts: seq<Action>, w: World, popped: seq<Desc>, k: nat)
    requires StandsAt(w0, acts, w, popped) && k < |w.past.done|
    ensures w.past.done[k].sent == w.past.done[k].req.target <==>
      w.past.done[k].req.target >= 0x40 ||
      (!TopBit(w0.bus.addr) && forall j :: 0 <= j < k ==> w.past.done[j].req.target < 0x40)
  {
    hide Run, Conserved, Ordered, Executing, Addressing, DoneOk, RequestOk, Shape, Progressing, TopBit;
    StandsCore(w0, acts, w, popped);
    InitialInv(w0);
    RunKeepsTop(w0, acts);
    var done := w.past.done;
    assert SentOk(w.top, done);
    AddressCollision(done[k].req.target);
    if j :| 0 <= j < k && done[j].req.target >= 0x40 {
      assert done[..k][j] == done[j];
    }
    if TopAfter(w.top, done[..k]) && !w.top {
      var j :| 0 <= j < k && done[..k][j].req.target >= 0x40;
      assert done[..k][j] == done[j];
    }
  }

  // ---------- Driver state ----------

  /** In every reachable state: there is a current return buffer exactly when there is a current request;
      an idle bus has nothing left to do; what is left is part of the request, which has at most 510
      bytes; a list runs only for a request; and the return buffer carries the request's header. */
  lemma DriverRecord(w0: World, acts: seq<Action>, w: World)
    requires Reaches(w0, acts, w)
    ensures var st := w.bus.st;
      && (st.currentReq == 0 <==> st.currentRet == 0)
      && (st.currentReq == 0 ==> st.reqLen == 0 && st.remaining == 0 && !st.notified && !w.bus.started)
      && 0 <= st.remaining <= st.reqLen <= 510
    ensures Shape(w.bus)
    ensures Busy(w.bus) ==>
      Answers(HeaderAt(w.bus, CurrentAnswer(w.bus)), Current(w.bus)[0])
  {
    hide Run, Conserved, Executed, Progressing, Initial;
    ReachesInv(w0, acts, w);
  }

  // ---------- The deferred notification ----------

  /** `i2cirq` as written crashes exactly when the interrupt ends a request during which a notification
      was deferred. */
  lemma CrashesExactly(w: World, ctl: bv32, timeout: bool, performed: nat, hw: bool)
    requires Inv(w) && CanInterrupt(w, ctl)
    ensures Crashes(Act(w, Interrupt(ctl, timeout, performed, hw)), NullRequest) <==>
      EndsRequest(w.bus, ctl) && w.bus.st.notified
    ensures Act(w, Interrupt(ctl, timeout, performed, hw)).Crash? ==>
      Crashes(Act(w, Interrupt(ctl, timeout, performed, hw)), NullRequest)
  {
    hide Kept, DeferralSound, LoadTokens, Report, Complete, Failed, NamesToken, Hardware, AfterInterrupt, Shape;
  }

  /** A notification is deferred exactly when it finds the bus busy and another request queued. */
  lemma DeferredExactly(w: World)
    requires Inv(w) && Act(w, Notify).Next?
    ensures Act(w, Notify).w.bus.st.notified <==> Busy(w.bus) && w.bus.rings.reqUsed != []
  {
    hide Executed, Ordered, Conserved, DeferralSound, LoadTokens;
    if w.bus.rings.reqUsed != [] && !Busy(w.bus) && w.bus.rings.retFree != [] {
      AcceptShape(w.bus);
      LoadKeeps(Accept(w.bus));
      NotNotified(w.bus);
    }
  }

  /** A run of the code as it is written. */
  predicate AsWritten(acts: seq<Action>) {
    forall a <- acts :: !a.InterruptIntended?
  }

  /** From `w` to `v` exactly the request in progress has been returned. */
  predicate ReturnedCurrent(w: World, v: World)
    requires Shaped(w) && Busy(w.bus)
  {
    && |v.past.done| == |w.past.done| + 1 && v.past.done[..|w.past.done|] == w.past.done
    && v.past.done[|w.past.done|].req == Current(w.bus)[0]
    && !Busy(v.bus)
  }

  /** With a deferred notification pending, a step either leaves the request in progress, or returns it and
      crashes. */
  lemma NotifiedStep(w: World, a: Action)
    requires Inv(w) && w.bus.st.notified && !a.InterruptIntended?
    ensures Shaped(w) && Busy(w.bus)
    ensures var r := Act(w, a);
      if r.Next? then
        r.w.bus.st.notified && Current(r.w.bus) == Current(w.bus) && r.w.past.done == w.past.done
      else Crashes(r, NullRequest) && r.popped == [] && ReturnedCurrent(w, r.w)
  {
    hide Executed, Ordered, Progressing, Conserved, Shape, Current, Irq, IrqIntended, Hardware, EndsRequest, NamesToken;
    NotifiedBusy(w);
    if a.Interrupt? {
      if CanInterrupt(w, a.ctl) {
        NotifiedInterrupt(w, a.ctl, a.timeout);
      }
    } else {
      OthersKeepRequest(w, a);
    }
  }

  lemma NotifiedInterrupt(w: World, ctl: bv32, timeout: bool)
    requires Shape(w.bus) && w.bus.started && w.bus.st.notified
    ensures var o := Irq(w.bus, ctl, timeout);
      if EndsRequest(w.bus, ctl) then o.Faulted? && o.why == NullRequest && o.popped == [] && !Busy(o.bus)
      else o.Ok? && o.bus.st.notified && Shape(o.bus) && Current(o.bus) == Current(w.bus)
    ensures Busy(w.bus)
  {
    hide LoadTokens, Failed, Report, Shape, Current;
    StartedBusy(w.bus);
    IrqEnds(w.bus, ctl, timeout);
    ReportKeeps(w.bus, ctl, timeout);
    CurrentReported(w.bus, ctl, timeout);
    var b1 := Report(w.bus, ctl, timeout);
    LoadKeeps(b1);
    LoadShape(b1);
    CurrentKept(b1, LoadTokens(b1).bus);
  }

  /** Once a notification has been deferred, at most the request in progress is still returned on that bus,
      and then the driver is down: a run of the code as written either goes on without finishing a request, or
      ends in the crash that comes with returning this one. */
  lemma {:induction false} DeferredNeverFinishes(w: World, acts: seq<Action>)
    requires Inv(w) && w.bus.st.notified && AsWritten(acts)
    ensures Shaped(w) && Busy(w.bus)
    ensures var r := Run(w, acts);
      if r.Next? then
        r.w.past.done == w.past.done && r.w.bus.st.notified && Current(r.w.bus) == Current(w.bus)
      else Crashes(r, NullRequest) && r.popped == [] && ReturnedCurrent(w, r.w)
    decreases |acts|
  {
    hide Kept, Shaped, Act, Current;
    if acts != [] {
      NotifiedStep(w, acts[0]);
      var n := Act(w, acts[0]);
      if n.Next? {
        ActInv(w, acts[0]);
        DeferredNeverFinishes(n.w, acts[1..]);
      }
    } else {
      NotifiedBusy(w);
    }
  }

  lemma NotifiedBusy(w: World)
    requires Inv(w) && w.bus.st.notified
    ensures Shaped(w) && Busy(w.bus)
  {
  }

  /** Steps of the server, which go on when the driver is down. */
  predicate ServerAction(a: Action) {
    a.Take? || a.Submitting? || a.Pop? || a.Release?
  }

  predicate ServerOnly(acts: seq<Action>) {
    forall a <- acts :: ServerAction(a)
  }

  /** Behind a crash the server can go on: no step of it fails, everything stays conserved and in order, what the
      driver had popped being put back, and nothing more is finished. */
  lemma {:induction false} ServerGoesOn(w: World, popped: seq<Desc>, acts: seq<Action>)
    requires Shaped(w) && Core(w.(bus := PutBack(w.bus, popped))) && ServerOnly(acts)
    ensures var r := Run(w, acts);
      r.Next? && Core(r.w.(bus := PutBack(r.w.bus, popped))) && r.w.past.done == w.past.done
    decreases |acts|
  {
    hide Kept, Shaped, Act, PutBack;
    if acts != [] {
      assert acts[0] in acts;
      ServerStep(w, popped, acts[0]);
      ServerGoesOn(Act(w, acts[0]).w, popped, acts[1..]);
    }
  }

  lemma ServerStep(w: World, popped: seq<Desc>, a: Action)
    requires Shaped(w) && Core(w.(bus := PutBack(w.bus, popped))) && ServerAction(a)
    ensures var r := Act(w, a);
      r.Next? && Core(r.w.(bus := PutBack(r.w.bus, popped))) && r.w.past.done == w.past.done
  {
    hide Kept, Shaped, Step, PutBack, Standing;
    var s := w.(bus := PutBack(w.bus, popped));
    StepCore(s, a);
    ServerCommutes(w, popped, a);
    StandingNext(Step(s, a));
  }

  /** The server does the same whether or not requests have been popped. */
  lemma ServerCommutes(w: World, popped: seq<Desc>, a: Action)
    requires Shaped(w) && Core(w.(bus := PutBack(w.bus, popped))) && ServerAction(a)
    ensures var s := w.(bus := PutBack(w.bus, popped)); var r := Step(w, a);
      r.Next? && r.w.past.done == w.past.done && Step(s, a) == Next(r.w.(bus := PutBack(r.w.bus, popped)))
  {
    hide Ordered, Executed, Progressing, ReqBag, RetBag, Shape, Submit, Bag;
    var s := w.(bus := PutBack(w.bus, popped));
    NoRingOverflows(s);
    if a.Submitting? && w.taking.Taking? {
      var t := w.taking;
      SubmitCommutes(w.bus, popped, t.buf, t.req);
    }
  }

  lemma SubmitCommutes(b: Bus, popped: seq<Desc>, p: nat, r: Request)
    requires Shape(b) && Shape(PutBack(b, popped)) && InReq(b.base, p) && |r.data| <= BUF_SZ - 2
    requires |popped + b.rings.reqUsed| < CAPACITY
    ensures Submit(PutBack(b, popped), p, r.client, r.target, r.data) ==
      PutBack(Submit(b, p, r.client, r.target, r.data), popped)
  {
    hide Shape, Store;
    var d := Desc(p, |r.data| + 2);
    assert popped + (b.rings.reqUsed + [d]) == (popped + b.rings.reqUsed) + [d];
  }

  /** `q` is what is left of `p` when a beginning has been taken off. */
  predicate Tail(q: seq<Desc>, p: seq<Desc>) {
    |q| <= |p| && q == p[|p| - |q|..]
  }

  /** What the server may do to the rings. */
  predicate ServerRings(p: Rings, q: Rings) {
    && p.reqUsed <= q.reqUsed && p.retFree <= q.retFree && Tail(q.reqFree, p.reqFree) && Tail(q.retUsed, p.retUsed)
  }

  /** What a handler of the driver may do to the rings. */
  predicate DriverRings(p: Rings, q: Rings) {
    && p.reqFree <= q.reqFree && p.retUsed <= q.retUsed && Tail(q.reqUsed, p.reqUsed) && Tail(q.retFree, p.retFree)
  }

  /** Each ring has a single producer and a single consumer: the server appends to the used request and the free
      return ring and takes from the other two, the driver the other way round. */
  lemma SingleProducers(w: World, a: Action)
    requires Core(w)
    ensures var p, q := w.bus.rings, Step(w, a).w.bus.rings;
      if ServerAction(a) then ServerRings(p, q) else DriverRings(p, q)
  {
    hide Kept, ServerRings, DriverRings, Shape, CheckBuf, DoTake, DoSubmit, DoPop, DoRelease, DoInterrupt,
      DoInterruptIntended, NamesToken;
    if ServerAction(a) {
      ServerOnRings(w, a);
    } else {
      match a
      case Notify => CheckBufRings(w.bus);
      case Interrupt(ctl, timeout, performed, hw) =>
        if CanInterrupt(w, ctl) { InterruptRings(w, ctl, timeout, performed, hw); }
        else { StillRings(w.bus.rings); }
      case InterruptIntended(ctl, timeout, performed, hw) =>
        if CanInterrupt(w, ctl) { InterruptRings(w, ctl, timeout, performed, hw); }
        else { StillRings(w.bus.rings); }
    }
  }

  lemma StillRings(p: Rings)
    ensures ServerRings(p, p) && DriverRings(p, p)
  {
  }

  lemma ServerOnRings(w: World, a: Action)
    requires Core(w) && ServerAction(a)
    ensures ServerRings(w.bus.rings, Step(w, a).w.bus.rings)
  {
    hide Ordered, Executed, Progressing, ReqBag, RetBag, Shape, HeaderAt, Store;
    NoRingOverflows(w);
  }

  lemma InterruptRings(w: World, ctl: bv32, timeout: bool, performed: nat, hw: bool)
    requires Core(w) && CanInterrupt(w, ctl)
    ensures DriverRings(w.bus.rings, DoInterrupt(w, ctl, timeout, performed, hw).w.bus.rings)
    ensures DriverRings(w.bus.rings, DoInterruptIntended(w, ctl, timeout, performed, hw).w.bus.rings)
  {
    hide DriverRings, Irq, IrqIntended, Hardware, AfterInterrupt, Shape, NamesToken, Conserved, Ordered, Executed,
      Progressing;
    StartedBusy(w.bus);
    IrqShape(w.bus, ctl, timeout);
    var p := Hardware(w, ctl, timeout, performed, hw);
    AfterBus(w, Irq(w.bus, ctl, timeout).bus, ctl, timeout, p);
    AfterBus(w, IrqIntended(w.bus, ctl, timeout).bus, ctl, timeout, p);
    IrqRings(w, ctl, timeout);
  }

  lemma CheckBufRings(b: Bus)
    requires Shape(b)
    ensures DriverRings(b.rings, CheckBuf(b).bus.rings)
    ensures CheckBuf(b).bus.rings.reqFree == b.rings.reqFree && CheckBuf(b).bus.rings.retUsed == b.rings.retUsed
  {
    hide LoadTokens, Store;
    if b.rings.reqUsed != [] && !Busy(b) && b.rings.retFree != [] {
      AcceptShape(b);
      LoadKeeps(Accept(b));
    }
  }

  lemma IrqRings(w: World, ctl: bv32, timeout: bool)
    requires Shaped(w) && Conserved(w) && w.bus.started
    ensures DriverRings(w.bus.rings, Irq(w.bus, ctl, timeout).bus.rings)
    ensures DriverRings(w.bus.rings, IrqIntended(w.bus, ctl, timeout).bus.rings)
  {
    hide LoadTokens, CheckBuf, Failed, Shape, Store, ReqBag, RetBag;
    NoRingOverflows(w);
    StartedBusy(w.bus);
    ReportShape(w.bus, ctl, timeout);
    var b1 := Report(w.bus, ctl, timeout);
    LoadKeeps(b1);
    CompleteShape(b1);
    CheckBufRings(Complete(b1));
  }

  /** If no notification ever finds the bus busy with another request queued, the code as written never
      loads tokens through the cleared request pointer. */
  lemma {:induction false} UndeferredNeverCrashes(w: World, acts: seq<Action>)
    requires Inv(w) && !w.bus.st.notified
    requires forall k :: 0 <= k < |acts| && acts[k] == Notify ==>
      var r := Run(w, acts[..k]); r.Next? ==> !(Busy(r.w.bus) && r.w.bus.rings.reqUsed != [])
    ensures !Crashes(Run(w, acts), NullRequest)
    ensures Run(w, acts).Next? ==> !Run(w, acts).w.bus.st.notified
    decreases |acts|
  {
    hide Kept, Shaped, Act, Run;
    RunNothing(w);
    if acts != [] {
      assert acts[..0] == [];
      UndeferredStep(w, acts[0]);
      RunFirst(w, acts, |acts| - 1);
      assert acts[1..][..|acts| - 1] == acts[1..] && acts[..|acts|] == acts;
      var n := Act(w, acts[0]);
      if n.Next? {
        forall k | 0 <= k < |acts| - 1 && acts[1..][k] == Notify
          ensures var r := Run(n.w, acts[1..][..k]); r.Next? ==> !(Busy(r.w.bus) && r.w.bus.rings.reqUsed != [])
        {
          RunFirst(w, acts, k);
          assert acts[k + 1] == Notify;
        }
        ActInv(w, acts[0]);
        UndeferredNeverCrashes(n.w, acts[1..]);
      }
    }
  }

  lemma UndeferredStep(w: World, a: Action)
    requires Inv(w) && !w.bus.st.notified
    requires a == Notify ==> !(Busy(w.bus) && w.bus.rings.reqUsed != [])
    ensures !Crashes(Act(w, a), NullRequest)
    ensures Act(w, a).Next? ==> !Act(w, a).w.bus.st.notified
  {
    hide Kept, Shape, Irq, IrqIntended, LoadTokens, Accept, NamesToken, Hardware, Store, HeaderAt;
    match a
    case Notify =>
      if Act(w, Notify).Next? {
        DeferredExactly(w);
      }
    case Interrupt(ctl, timeout, performed, hw) => if CanInterrupt(w, ctl) { UndeferredInterrupt(w, ctl, timeout); }
    case InterruptIntended(ctl, timeout, performed, hw) =>
      if CanInterrupt(w, ctl) { UndeferredInterrupt(w, ctl, timeout); }
    case _ =>
  }

  lemma UndeferredInterrupt(w: World, ctl: bv32, timeout: bool)
    requires Inv(w) && !w.bus.st.notified && w.bus.started
    ensures Irq(w.bus, ctl, timeout) == IrqIntended(w.bus, ctl, timeout)
    ensures Irq(w.bus, ctl, timeout).Ok? && !Irq(w.bus, ctl, timeout).bus.st.notified
  {
    hide Executed, Ordered, Conserved, LoadTokens, Failed, NamesToken;
    ReportShape(w.bus, ctl, timeout);
    ReportKeeps(w.bus, ctl, timeout);
    LoadKeeps(Report(w.bus, ctl, timeout));
  }

  // ---------- The commented behaviour ----------

  /** Runs in which the driver's handler does what its comment says. */
  predicate AsIntended(acts: seq<Action>) {
    forall a <- acts :: !a.Interrupt?
  }

  /** Such runs never load tokens through the cleared request pointer. */
  lemma {:induction false} IntendedNeverCrashes(w: World, acts: seq<Action>)
    requires Shaped(w) && AsIntended(acts)
    ensures !Crashes(Run(w, acts), NullRequest)
    decreases |acts|
  {
    hide Shaped, Act;
    if acts != [] {
      assert acts[0] in acts;
      IntendedStep(w, acts[0]);
      var n := Act(w, acts[0]);
      if n.Next? {
        IntendedNeverCrashes(n.w, acts[1..]);
      }
    }
  }

  lemma IntendedStep(w: World, a: Action)
    requires Shaped(w) && !a.Interrupt?
    ensures !Crashes(Act(w, a), NullRequest)
  {
    hide LoadTokens, Accept, Shape, Report, Complete, Hardware, AfterInterrupt, HeaderAt, Submit, NamesToken, Failed;
  }

  /** And a deferred notification is not lost: when the interrupt ends the request in progress, that is returned,
      and the next one is taken up; only a missing return buffer prevents it. */
  lemma IntendedTakesUp(w: World, ctl: bv32, timeout: bool, performed: nat, hw: bool)
    requires Inv(w) && CanInterrupt(w, ctl) && EndsRequest(w.bus, ctl) && w.bus.st.notified
    ensures |Waiting(w.bus)| > 0 && Busy(w.bus)
    ensures var r := Act(w, InterruptIntended(ctl, timeout, performed, hw));
      && |r.w.past.done| == |w.past.done| + 1 && r.w.past.done[|w.past.done|].req == Current(w.bus)[0]
      && (r.Crash? <==> w.bus.rings.retFree == []) && (r.Crash? ==> r.why == NullReturnBuffer)
      && (r.Next? ==> Current(r.w.bus) == [Waiting(w.bus)[0]] && !r.w.bus.st.notified)
  {
    hide Kept, Shape, Current, Waiting, Hardware, Failed, NamesToken, AddressField;
    var a := InterruptIntended(ctl, timeout, performed, hw);
    NotifiedBusy(w);
    WaitingSize(w.bus);
    IntendedEnds(w, ctl, timeout, performed, hw);
    var v := Act(w, a).w;
    if Act(w, a).Next? {
      ActInv(w, a);
      TakenUp(w, v);
    }
  }

  lemma WaitingSize(b: Bus)
    requires Shape(b)
    ensures |Waiting(b)| == |b.rings.reqUsed|
  {
  }

  /** What the intended handler leaves at the end of a request that was notified meanwhile. */
  lemma IntendedEnds(w: World, ctl: bv32, timeout: bool, performed: nat, hw: bool)
    requires Inv(w) && CanInterrupt(w, ctl) && EndsRequest(w.bus, ctl) && w.bus.st.notified && Busy(w.bus)
    ensures var r := Act(w, InterruptIntended(ctl, timeout, performed, hw)); var v := r.w;
      && |v.past.done| == |w.past.done| + 1 && v.past.done[..|w.past.done|] == w.past.done
      && v.past.done[|w.past.done|].req == Current(w.bus)[0] && v.past.submitted == w.past.submitted
      && (r.Crash? <==> w.bus.rings.retFree == []) && (r.Crash? ==> r.why == NullReturnBuffer)
      && (r.Next? ==> Busy(v.bus) && !v.bus.st.notified)
  {
    hide Kept, Shape, Current, Waiting, Hardware, Failed, NamesToken, AddressField, LoadTokens, Accept, Report;
    IrqEnds(w.bus, ctl, timeout);
    ReportKeeps(w.bus, ctl, timeout);
    var c := Complete(Report(w.bus, ctl, timeout));
    CompletedRings(Report(w.bus, ctl, timeout));
    if c.rings.retFree != [] {
      AcceptShape(c);
      LoadKeeps(Accept(c));
      NotNotified(c);
    }
  }

  lemma CompletedRings(b: Bus)
    requires Shape(b) && Busy(b)
    ensures var c := Complete(b);
      c.rings.reqUsed == b.rings.reqUsed && c.rings.retFree == b.rings.retFree && !Busy(c)
  {
  }

  /** When the request in progress is done and another is in progress, that is the next in the queue. */
  lemma TakenUp(w: World, v: World)
    requires Inv(w) && Inv(v) && Busy(w.bus) && Busy(v.bus) && v.past.submitted == w.past.submitted
    requires |v.past.done| == |w.past.done| + 1 && v.past.done[..|w.past.done|] == w.past.done
    requires v.past.done[|w.past.done|].req == Current(w.bus)[0] && |Waiting(w.bus)| > 0
    ensures Current(v.bus) == [Waiting(w.bus)[0]]
  {
    hide Conserved, Executed, Progressing, Shape, Waiting, RequestAt;
    var n := |w.past.done|;
    assert |Current(w.bus)| == |Current(v.bus)| == 1;
    var x := Requests(w.past.done) + Current(w.bus) + Waiting(w.bus);
    var y := Requests(v.past.done) + Current(v.bus) + Waiting(v.bus);
    assert x == y;
    assert x[n + 1] == Waiting(w.bus)[0] && y[n + 1] == Current(v.bus)[0];
  }
}
