/**
 The invariant of a bus: what every step keeps, from any initial state and under any schedule of server,
 driver and hardware steps.
 */
module Invariant {
  import opened Registers
  import opened RingBuffer
  import opened Memory
  import opened BusModel
  import opened BusRuns
  import opened Conservation
  import opened Ordering
  import opened Execution
  import opened Progress

  /** What holds also when a handler has crashed and what it had popped is put back. */
  ghost predicate Kept(w: World)
    requires Shaped(w)
  {
    Conserved(w) && Ordered(w) && Executed(w) && Progressing(w)
  }

  ghost predicate Core(w: World) {
    Shaped(w) && Kept(w)
  }

  /** A deferred notification is remembered only while a request is in progress and another is queued. */
  predicate DeferralSound(w: World) {
    w.bus.st.notified ==> Busy(w.bus) && w.bus.rings.reqUsed != []
  }

  /** The invariant of a bus. */
  ghost predicate Inv(w: World) {
    Core(w) && DeferralSound(w)
  }

  /** The state after initialisation: all buffers free, the driver idle.  Address register, directions and
      buffer contents are arbitrary. */
  predicate Initial(w: World) {
    && Mapped(w.bus.origin, w.bus.base, |w.bus.mem|)
    && w.bus.rings == FreeRings(w.bus.base, BUF_COUNT)
    && w.bus.st == IDLE.(reading := w.bus.st.reading)
    && !w.bus.started
    && w.top == TopBit(w.bus.addr)
    && w.taking == Nothing && w.held == 0
    && w.past.submitted == [] && w.past.done == [] && w.past.collected == []
  }

  lemma PoolIn(first: nat)
    ensures forall d <- Pool(first, BUF_COUNT) :: InPool(first, d.addr)
  {
    forall d <- Pool(first, BUF_COUNT) ensures InPool(first, d.addr) {
      var j :| 0 <= j < BUF_COUNT && d == Pool(first, BUF_COUNT)[j];
    }
  }

  lemma InitialShaped(w: World)
    requires Initial(w)
    ensures Shaped(w) && Conserved(w)
  {
    PoolIn(w.bus.base);
    PoolIn(w.bus.base + POOL_SZ);
    hide Bag, InPool, Pool;
    NothingBag(w);
  }

  lemma NothingBag(w: World)
    requires w.taking == Nothing && w.held == 0 && w.bus.st.currentReq == 0 && w.bus.st.currentRet == 0
    requires w.bus.rings == FreeRings(w.bus.base, BUF_COUNT)
    ensures Conserved(w)
  {
  }

  lemma InitialInv(w: World)
    requires Initial(w)
    ensures Inv(w)
  {
    InitialShaped(w);
    hide TopBit, Holds, At, Conserved, Shape;
    IdleQueues(w);
    hide Current, Waiting, Returned;
  }

  lemma IdleQueues(w: World)
    requires Shaped(w) && Initial(w)
    ensures Current(w.bus) == [] && Waiting(w.bus) == [] && Returned(w.bus) == [] && !Busy(w.bus)
  {
  }

  lemma CheckBufNotified(b: Bus)
    requires Shape(b) && CheckBuf(b).Ok?
    ensures CheckBuf(b).bus.st.notified ==> Busy(CheckBuf(b).bus) && CheckBuf(b).bus.rings.reqUsed != []
  {
    hide LoadTokens, Shape;
    if b.rings.reqUsed != [] && !Busy(b) {
      AcceptShape(b);
      LoadKeeps(Accept(b));
      NotNotified(b);
    }
  }

  lemma NotNotified(b: Bus)
    requires Shape(b) && b.rings.reqUsed != [] && b.rings.retFree != []
    ensures !Accept(b).st.notified
  {
  }

  lemma IrqNotified(b: Bus, ctl: bv32, timeout: bool, c: Bus)
    requires Shape(b) && b.started && Busy(b) && (b.st.notified ==> b.rings.reqUsed != [])
    requires Irq(b, ctl, timeout) == Ok(c) || IrqIntended(b, ctl, timeout) == Ok(c)
    ensures c.st.notified ==> Busy(c) && c.rings.reqUsed != []
  {
    hide LoadTokens, CheckBuf, Shape, Failed, Report;
    ReportShape(b, ctl, timeout);
    ReportKeeps(b, ctl, timeout);
    var b1 := Report(b, ctl, timeout);
    if EndsRequest(b, ctl) {
      CompleteShape(b1);
      if Irq(b, ctl, timeout) != Ok(c) {
        CheckBufNotified(Complete(b1));
      }
    } else {
      LoadKeeps(b1);
    }
  }

  lemma StepNotified(w: World, a: Action)
    requires Shaped(w) && DeferralSound(w)
    ensures Step(w, a).Next? ==> DeferralSound(Step(w, a).w)
  {
    hide CheckBuf, Irq, IrqIntended, Shape, Hardware, Store, HeaderAt;
    match a
    case Notify =>
      if CheckBuf(w.bus).Ok? {
        CheckBufNotified(w.bus);
      }
    case Interrupt(ctl, timeout, performed, hw) =>
      if CanInterrupt(w, ctl) && Irq(w.bus, ctl, timeout).Ok? {
        StartedBusy(w.bus);
        IrqNotified(w.bus, ctl, timeout, Irq(w.bus, ctl, timeout).bus);
      }
    case InterruptIntended(ctl, timeout, performed, hw) =>
      if CanInterrupt(w, ctl) && IrqIntended(w.bus, ctl, timeout).Ok? {
        StartedBusy(w.bus);
        IrqNotified(w.bus, ctl, timeout, IrqIntended(w.bus, ctl, timeout).bus);
      }
    case _ =>
  }

  /** Every step keeps the core, also one that crashes the driver. */
  lemma StepCore(w: World, a: Action)
    requires Core(w)
    ensures Core(Standing(Step(w, a)))
  {
    hide Shaped, Conserved, Ordered, Executed, Progressing, Step, Standing;
    StepShaped(w, a);
    StepConserves(w, a);
    StepOrdered(w, a);
    StepExecuted(w, a);
    StepProgress(w, a);
  }

  /** Every step keeps the invariant. */
  lemma StepInv(w: World, a: Action)
    requires Inv(w)
    ensures Step(w, a).Next? ==> Inv(Step(w, a).w)
  {
    hide Kept, Shaped, Step, DeferralSound;
    StepCore(w, a);
    StepNotified(w, a);
  }

  // ---------- Runs ----------

  /** A step, which keeps the shape of the state. */
  function Act(w: World, a: Action): (r: Result)
    requires Shaped(w)
    ensures Shaped(r.w)
  {
    StepShaped(w, a);
    Step(w, a)
  }

  /** Runs a schedule; a crash ends it. */
  function Run(w: World, acts: seq<Action>): (r: Result)
    requires Shaped(w)
    ensures Shaped(r.w)
    decreases |acts|
  {
    if acts == [] then Next(w) else
    hide Shaped, Act;
    var n := Act(w, acts[0]);
    if n.Crash? then n else Run(n.w, acts[1..])
  }

  lemma RunNothing(w: World)
    requires Shaped(w)
    ensures Run(w, []) == Next(w)
  {
  }

  lemma RunFirst(w: World, acts: seq<Action>, k: nat)
    requires Shaped(w) && k < |acts|
    ensures Run(w, acts[..k + 1]) ==
      var n := Act(w, acts[0]); if n.Crash? then n else Run(n.w, acts[1..][..k])
  {
    hide Shaped, Act;
    assert acts[..k + 1][0] == acts[0] && acts[..k + 1][1..] == acts[1..][..k];
  }

  lemma RunCons(w: World, a: Action, rest: seq<Action>)
    requires Shaped(w)
    ensures Run(w, [a] + rest) == var n := Act(w, a); if n.Crash? then n else Run(n.w, rest)
  {
    hide Shaped, Act;
    assert ([a] + rest)[1..] == rest;
  }

  /** A schedule can be cut anywhere. */
  lemma {:induction false} RunConcat(w: World, x: seq<Action>, y: seq<Action>)
    requires Shaped(w)
    ensures Run(w, x + y) == var n := Run(w, x); if n.Crash? then n else Run(n.w, y)
    decreases |x|
  {
    hide Shaped, Act;
    if x == [] {
      assert x + y == y;
    } else {
      assert (x + y)[0] == x[0] && (x + y)[1..] == x[1..] + y;
      var n := Act(w, x[0]);
      if n.Next? {
        RunConcat(n.w, x[1..], y);
      }
    }
  }

  lemma ActInv(w: World, a: Action)
    requires Inv(w)
    ensures Act(w, a).Next? ==> Inv(Act(w, a).w)
  {
    hide Kept, Shaped, Step;
    StepInv(w, a);
  }

  /** Every run keeps the invariant. */
  lemma {:induction false} RunInv(w: World, acts: seq<Action>)
    requires Inv(w)
    ensures Run(w, acts).Next? ==> Inv(Run(w, acts).w)
    decreases |acts|
  {
    hide Kept, Shaped, Act, DeferralSound;
    if acts != [] {
      ActInv(w, acts[0]);
      var n := Act(w, acts[0]);
      if n.Next? {
        RunInv(n.w, acts[1..]);
      }
    }
  }

  /** Every run keeps the core, also one that ends in a crash. */
  lemma {:induction false} RunCore(w: World, acts: seq<Action>)
    requires Core(w)
    ensures Core(Standing(Run(w, acts)))
    decreases |acts|
  {
    hide Kept, Shaped, Standing;
    if acts != [] {
      StepCore(w, acts[0]);
      var n := Act(w, acts[0]);
      if n.Next? {
        StandingNext(n);
        RunCore(n.w, acts[1..]);
      }
    } else {
      StandingNext(Next(w));
    }
  }

  lemma StandingNext(r: Result)
    requires r.Next?
    ensures Standing(r) == r.w
  {
  }

  /** Reachable states of a running driver. */
  predicate Reaches(w0: World, acts: seq<Action>, w: World) {
    Initial(w0) && (InitialInv(w0); Run(w0, acts) == Next(w))
  }

  /** States in which a run can stand: reachable ones, and those a crash leaves behind, the driver having
      popped the requests `popped`. */
  predicate StandsAt(w0: World, acts: seq<Action>, w: World, popped: seq<Desc>) {
    Initial(w0) && (InitialInv(w0);
      var r := Run(w0, acts);
      r.w == w && popped == if r.Next? then [] else r.popped)
  }

  /** Every reachable state satisfies the invariant. */
  lemma ReachesInv(w0: World, acts: seq<Action>, w: World)
    requires Reaches(w0, acts, w)
    ensures Inv(w)
  {
    hide Kept, Shaped, Run, Initial, DeferralSound;
    InitialInv(w0);
    RunInv(w0, acts);
  }

  /** Wherever a run stands, the core holds when what was popped is put back. */
  lemma StandsCore(w0: World, acts: seq<Action>, w: World, popped: seq<Desc>)
    requires StandsAt(w0, acts, w, popped)
    ensures Shaped(w) && Core(w.(bus := PutBack(w.bus, popped)))
  {
    hide Kept, Shaped, Run, Initial, DeferralSound;
    InitialInv(w0);
    RunCore(w0, acts);
    assert [] + w.bus.rings.reqUsed == w.bus.rings.reqUsed;
  }
}
