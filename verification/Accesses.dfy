/**
 The runs of a bus with the server's ring operations split into their single memory accesses.  The driver may
 run between any two of them.  Whatever the schedule, the bus does what it does in a run in which each operation
 is one step, taken when the operation publishes its index or is refused.
 */
module Accesses {
  import opened RingBuffer
  import opened RingConcurrency
  import opened Options
  import opened Memory
  import opened BusModel
  import opened BusRuns
  import opened Conservation
  import opened Invariant
  import opened BusProperties

  /** The four rings in memory, and where the server is in its operation on one of them.  Between its handlers the
      driver is in none. */
  datatype FourRings = FourRings(reqFree: State, reqUsed: State, retFree: State, retUsed: State)

  /** `w` is the bus but for its rings; `doing` is the action the server is in the middle of. */
  datatype Fine = Fine(p: FourRings, w: World, doing: Option<Action>)

  const NO_RINGS := Rings([], [], [], [])

  /** One access of the server, which begins `a` when it is in the middle of nothing, or a handler of the driver. */
  datatype Move = ServerMove(a: Action) | DriverMove(a: Action)

  predicate FourValid(p: FourRings) {
    && Underway(p.reqFree) && Underway(p.reqUsed) && Underway(p.retFree) && Underway(p.retUsed)
    && p.reqFree.producer.ProducerIdle? && p.retUsed.producer.ProducerIdle?
    && p.reqUsed.consumer.ConsumerIdle? && p.retFree.consumer.ConsumerIdle?
  }

  function RingsOf(p: FourRings): Rings
    requires FourValid(p)
  {
    Rings(p.reqFree.ring.Contents(), p.reqUsed.ring.Contents(), p.retFree.ring.Contents(), p.retUsed.ring.Contents())
  }

  /** The bus as the coarse runs see it. */
  function Coarse(f: Fine): World
    requires FourValid(f.p)
  {
    f.w.(bus := f.w.bus.(rings := RingsOf(f.p)))
  }

  function WithoutRings(w: World): World {
    w.(bus := w.bus.(rings := NO_RINGS))
  }

  // ---------- The driver's operations ----------

  /** One access. */
  function Turned(s: State, x: Turn): (r: State)
    requires Underway(s)
    ensures Underway(r)
  {
    StepRefines(s, x);
    Access(s, x).state
  }

  /** A complete operation: four accesses, one after the other. */
  function Whole(s: State, x: Turn): (r: State)
    requires Underway(s)
    ensures Underway(r)
  {
    hide Underway, Turned;
    Turned(Turned(Turned(Turned(s, x), x), x), x)
  }

  /** Complete enqueues. */
  function PutAll(s: State, q: seq<Desc>): (r: State)
    requires Underway(s)
    ensures Underway(r)
    decreases |q|
  {
    hide Underway, Whole;
    if q == [] then s else PutAll(Whole(s, ProducerTurn(q[0])), q[1..])
  }

  /** Complete dequeues. */
  function TakeAll(s: State, n: nat): (r: State)
    requires Underway(s)
    ensures Underway(r)
    decreases n
  {
    hide Underway, Whole;
    if n == 0 then s else TakeAll(Whole(s, ConsumerTurn), n - 1)
  }

  /** What an access does, with the ring seen as a queue. */
  lemma TurnSteps(s: State, x: Turn)
    requires Underway(s)
    ensures s.ring.Valid() && Turned(s, x).ring.Valid() && Turned(s, x) == Access(s, x).state
    ensures QueueStep(s.ring.Contents(), Access(s, x).seen, Turned(s, x).ring.Contents())
    ensures s.ring.Full() <==> |s.ring.Contents()| == CAPACITY
    ensures s.ring.Empty() <==> s.ring.Contents() == []
  {
    hide Access, RingMemory.Contents;
    StepRefines(s, x);
    s.ring.Tests();
  }

  lemma PutOne(s: State, d: Desc)
    requires Underway(s) && s.producer.ProducerIdle? && |s.ring.Contents()| < CAPACITY
    ensures var t := Whole(s, ProducerTurn(d));
      t.ring.Contents() == s.ring.Contents() + [d] && t.producer.ProducerIdle? && t.consumer == s.consumer
  {
    hide RingMemory.Contents, RingMemory.Valid, Underway, Turned, RingMemory.Full, RingMemory.StoreAddr,
      RingMemory.StoreLen, RingMemory.Publish;
    var x := ProducerTurn(d);
    TurnSteps(s, x);
    TurnSteps(Turned(s, x), x);
    TurnSteps(Turned(Turned(s, x), x), x);
    TurnSteps(Turned(Turned(Turned(s, x), x), x), x);
  }

  lemma TakeOne(s: State)
    requires Underway(s) && s.consumer.ConsumerIdle? && s.ring.Contents() != []
    ensures var t := Whole(s, ConsumerTurn);
      t.ring.Contents() == s.ring.Contents()[1..] && t.consumer.ConsumerIdle? && t.producer == s.producer
  {
    hide RingMemory.Contents, RingMemory.Valid, Underway, Turned, RingMemory.Empty, RingMemory.Consume;
    var x := ConsumerTurn;
    TurnSteps(s, x);
    TurnSteps(Turned(s, x), x);
    TurnSteps(Turned(Turned(s, x), x), x);
    TurnSteps(Turned(Turned(Turned(s, x), x), x), x);
  }

  lemma {:induction false} PutsAppend(s: State, q: seq<Desc>)
    requires Underway(s) && s.producer.ProducerIdle? && |s.ring.Contents() + q| <= CAPACITY
    ensures var t := PutAll(s, q);
      t.ring.Contents() == s.ring.Contents() + q && t.producer.ProducerIdle? && t.consumer == s.consumer
    decreases |q|
  {
    hide RingMemory.Contents, RingMemory.Valid, Whole;
    var contents := s.ring.Contents();
    if q == [] {
      assert contents + [] == contents;
    } else {
      PutOne(s, q[0]);
      assert (contents + [q[0]]) + q[1..] == contents + q;
      PutsAppend(Whole(s, ProducerTurn(q[0])), q[1..]);
    }
  }

  lemma {:induction false} TakesDrop(s: State, n: nat)
    requires Underway(s) && s.consumer.ConsumerIdle? && n <= |s.ring.Contents()|
    ensures var t := TakeAll(s, n);
      t.ring.Contents() == s.ring.Contents()[n..] && t.consumer.ConsumerIdle? && t.producer == s.producer
    decreases n
  {
    hide RingMemory.Contents, RingMemory.Valid, Whole;
    if n > 0 {
      TakeOne(s);
      TakesDrop(Whole(s, ConsumerTurn), n - 1);
    }
  }

  // ---------- The server's accesses ----------

  /** Whether an action of the server gets as far as its ring. */
  predicate CanBegin(w: World, a: Action) {
    match a
    case Take(req) => w.taking.Nothing? && |req.data| <= BUF_SZ - 2
    case Submitting => w.taking.Taking?
    case Pop => w.held == 0
    case Release => w.held != 0
    case _ => false
  }

  /** The server is in the middle of at most one operation, the one of the action it is doing. */
  predicate DoingOne(f: Fine) {
    && (f.doing.None? || CanBegin(f.w, f.doing.value))
    && (!f.p.reqFree.consumer.ConsumerIdle? <==> f.doing.Some? && f.doing.value.Take?)
    && (!f.p.reqUsed.producer.ProducerIdle? <==> f.doing == Some(Submitting))
    && (!f.p.retUsed.consumer.ConsumerIdle? <==> f.doing == Some(Pop))
    && (!f.p.retFree.producer.ProducerIdle? <==> f.doing == Some(Release))
    && (f.doing == Some(Submitting) ==> f.p.reqUsed.producer.d == Desc(f.w.taking.buf, |f.w.taking.req.data| + 2))
    && (f.doing == Some(Release) ==> f.p.retFree.producer.d == Desc(f.w.held, BUF_SZ))
  }

  ghost predicate FineInv(f: Fine) {
    FourValid(f.p) && f.w.bus.rings == NO_RINGS && Inv(Coarse(f)) && DoingOne(f)
  }

  /** Turned a move, and the steps of the coarse runs it completes. */
  datatype Advance = Advance(f: Fine, done: seq<Action>)

  /** One access of `allocReqBuf`'s dequeue. */
  function MoveTake(f: Fine, req: Request): Advance
    requires FourValid(f.p)
  {
    var e := Access(f.p.reqFree, ConsumerTurn);
    var p := f.p.(reqFree := e.state);
    match e.seen
    case Dequeued(d) => Advance(Fine(p, f.w.(taking := Taking(d.addr, req)), None), [Take(req)])
    case RefusedEmpty => Advance(f.(doing := None), [Take(req)])
    case _ => Advance(Fine(p, f.w, Some(Take(req))), [])
  }

  /** One access of its enqueue; the bytes of the buffer are written with the last one. */
  ghost function MoveSubmit(f: Fine): Advance
    requires FineInv(f) && f.w.taking.Taking?
  {
    FineValid(f);
    var t := f.w.taking;
    var b := Coarse(f).bus;
    var e := Access(f.p.reqUsed, ProducerTurn(Desc(t.buf, |t.req.data| + 2)));
    var p := f.p.(reqUsed := e.state);
    if e.seen.Enqueued? then
      var mem := Store(b.mem, t.buf - b.origin, [t.req.client, t.req.target] + t.req.data);
      var w := f.w.(taking := Taking.Nothing, bus := f.w.bus.(mem := mem),
                    past := f.w.past.(submitted := f.w.past.submitted + [t.req]));
      Advance(Fine(p, w, None), [Submitting])
    else Advance(Fine(p, f.w, Some(Submitting)), [])
  }

  /** One access of `popRetBuf`'s dequeue; the header is read with the last one. */
  ghost function MovePop(f: Fine): Advance
    requires FineInv(f)
  {
    var e := Access(f.p.retUsed, ConsumerTurn);
    var p := f.p.(retUsed := e.state);
    match e.seen
    case Dequeued(d) =>
      PoppedPlace(f);
      var w := f.w.(held := d.addr,
                    past := f.w.past.(collected := f.w.past.collected + [HeaderAt(Coarse(f).bus, d)]));
      Advance(Fine(p, w, None), [Pop])
    case RefusedEmpty => Advance(f.(doing := None), [Pop])
    case _ => Advance(Fine(p, f.w, Some(Pop)), [])
  }

  lemma PoppedPlace(f: Fine)
    requires FineInv(f)
    ensures Shape(Coarse(f).bus)
    ensures var e := Access(f.p.retUsed, ConsumerTurn); e.seen.Dequeued? ==> InRet(f.w.bus.base, e.seen.d.addr)
  {
    hide RingMemory.Contents, RingMemory.Valid, Underway, Kept, RingMemory.Empty, RingMemory.Consume;
    TurnSteps(f.p.retUsed, ConsumerTurn);
    var e := Access(f.p.retUsed, ConsumerTurn);
    if e.seen.Dequeued? {
      assert e.seen.d in Coarse(f).bus.rings.retUsed;
    }
  }

  /** One access of `releaseRetBuf`'s enqueue. */
  function MoveRelease(f: Fine): Advance
    requires FourValid(f.p)
  {
    var e := Access(f.p.retFree, ProducerTurn(Desc(f.w.held, BUF_SZ)));
    var p := f.p.(retFree := e.state);
    if e.seen.Enqueued? then Advance(Fine(p, f.w.(held := 0), None), [Release])
    else Advance(Fine(p, f.w, Some(Release)), [])
  }

  ghost function MoveServer(f: Fine, a: Action): Advance
    requires FineInv(f)
  {
    FineValid(f);
    hide FineInv, FourValid, Shaped, Coarse, DoingOne, Inv;
    var b := if f.doing.Some? then f.doing.value else a;
    if !CanBegin(f.w, b) then Advance(f, []) else
    match b
    case Take(req) => MoveTake(f, req)
    case Submitting => MoveSubmit(f)
    case Pop => MovePop(f)
    case Release => MoveRelease(f)
  }

  // ---------- Every access is a step, or none ----------

  /** What a move of the server is in the coarse runs. */
  ghost predicate Simulates(f: Fine, m: Advance)
    requires FineInv(f)
  {
    && FineInv(m.f)
    && if m.done == [] then Coarse(m.f) == Coarse(f)
       else |m.done| == 1 && Act(Coarse(f), m.done[0]) == Next(Coarse(m.f))
  }

  lemma TakeSimulates(f: Fine, req: Request)
    requires FineInv(f) && CanBegin(f.w, Take(req)) && (f.doing.None? || f.doing == Some(Take(req)))
    ensures Simulates(f, MoveTake(f, req))
  {
    hide RingMemory.Contents, RingMemory.Valid, Kept, RingMemory.Empty, RingMemory.Consume, Shape, Underway;
    TurnSteps(f.p.reqFree, ConsumerTurn);
    StepRefines(f.p.reqFree, ConsumerTurn);
    ActInv(Coarse(f), Take(req));
  }

  lemma SubmitSimulates(f: Fine)
    requires FineInv(f) && CanBegin(f.w, Submitting) && (f.doing.None? || f.doing == Some(Submitting))
    ensures Simulates(f, MoveSubmit(f))
  {
    hide RingMemory.Contents, RingMemory.Valid, Kept, RingMemory.Full, RingMemory.Publish, RingMemory.StoreAddr,
      RingMemory.StoreLen, Shape, Underway, Store;
    var t := f.w.taking;
    var x := ProducerTurn(Desc(t.buf, |t.req.data| + 2));
    TurnSteps(f.p.reqUsed, x);
    StepRefines(f.p.reqUsed, x);
    RoomFor(Coarse(f));
    ActInv(Coarse(f), Submitting);
  }

  /** The rings the server is about to append to have room. */
  lemma RoomFor(w: World)
    requires Inv(w)
    ensures w.taking.Taking? ==> |w.bus.rings.reqUsed| < CAPACITY
    ensures w.held != 0 ==> |w.bus.rings.retFree| < CAPACITY
  {
    NoRingOverflows(w);
  }

  lemma PopSimulates(f: Fine)
    requires FineInv(f) && CanBegin(f.w, Pop) && (f.doing.None? || f.doing == Some(Pop))
    ensures Simulates(f, MovePop(f))
  {
    hide RingMemory.Contents, RingMemory.Valid, Kept, RingMemory.Empty, RingMemory.Consume, Shape, Underway, HeaderAt;
    TurnSteps(f.p.retUsed, ConsumerTurn);
    StepRefines(f.p.retUsed, ConsumerTurn);
    PoppedPlace(f);
    ActInv(Coarse(f), Pop);
    HeldAddress(Coarse(f));
  }

  /** A return buffer is not at address 0. */
  lemma HeldAddress(w: World)
    requires Shaped(w)
    ensures forall d <- w.bus.rings.retUsed :: d.addr != 0
  {
  }

  lemma ReleaseSimulates(f: Fine)
    requires FineInv(f) && CanBegin(f.w, Release) && (f.doing.None? || f.doing == Some(Release))
    ensures Simulates(f, MoveRelease(f))
  {
    hide RingMemory.Contents, RingMemory.Valid, Kept, RingMemory.Full, RingMemory.Publish, RingMemory.StoreAddr,
      RingMemory.StoreLen, Shape, Underway;
    var x := ProducerTurn(Desc(f.w.held, BUF_SZ));
    TurnSteps(f.p.retFree, x);
    StepRefines(f.p.retFree, x);
    RoomFor(Coarse(f));
    ActInv(Coarse(f), Release);
  }

  /** Every access of the server is one step of the coarse runs, or none. */
  lemma ServerSimulates(f: Fine, a: Action)
    requires FineInv(f)
    ensures Simulates(f, MoveServer(f, a))
  {
    hide MoveTake, MoveSubmit, MovePop, MoveRelease, Simulates;
    var b := if f.doing.Some? then f.doing.value else a;
    if !CanBegin(f.w, b) {
      Idle(f);
    } else {
      match b
      case Take(req) => TakeSimulates(f, req);
      case Submitting => SubmitSimulates(f);
      case Pop => PopSimulates(f);
      case Release => ReleaseSimulates(f);
    }
  }

  lemma Idle(f: Fine)
    requires FineInv(f)
    ensures Simulates(f, Advance(f, []))
  {
  }

  // ---------- The driver between two accesses ----------

  /** The rings after a handler that changed their contents from `p` to `q`. */
  function Handled(s: FourRings, p: Rings, q: Rings): FourRings
    requires FourValid(s) && DriverRings(p, q)
  {
    FourRings(PutAll(s.reqFree, q.reqFree[|p.reqFree|..]), TakeAll(s.reqUsed, |p.reqUsed| - |q.reqUsed|),
      TakeAll(s.retFree, |p.retFree| - |q.retFree|), PutAll(s.retUsed, q.retUsed[|p.retUsed|..]))
  }

  /** The server is where it was, and the rings hold what they should. */
  lemma HandledRings(s: FourRings, q: Rings)
    requires FourValid(s) && DriverRings(RingsOf(s), q) && |q.reqFree| <= CAPACITY && |q.retUsed| <= CAPACITY
    ensures var t := Handled(s, RingsOf(s), q);
      && FourValid(t) && RingsOf(t) == q
      && t.reqFree.consumer == s.reqFree.consumer && t.retUsed.consumer == s.retUsed.consumer
      && t.reqUsed.producer == s.reqUsed.producer && t.retFree.producer == s.retFree.producer
  {
    hide RingMemory.Contents, Underway, PutAll, TakeAll;
    var p := RingsOf(s);
    PutsAppend(s.reqFree, q.reqFree[|p.reqFree|..]);
    PutsAppend(s.retUsed, q.retUsed[|p.retUsed|..]);
    TakesDrop(s.reqUsed, |p.reqUsed| - |q.reqUsed|);
    TakesDrop(s.retFree, |p.retFree| - |q.retFree|);
  }

  /** A handler of the driver may run between any two accesses of the server. */
  ghost function MoveDriver(f: Fine, a: Action): Fine
    requires FineInv(f) && !ServerAction(a)
  {
    SingleProducers(Coarse(f), a);
    var w := Act(Coarse(f), a).w;
    Fine(Handled(f.p, RingsOf(f.p), w.bus.rings), WithoutRings(w), f.doing)
  }

  lemma DriverSimulates(f: Fine, a: Action)
    requires FineInv(f) && !ServerAction(a)
    ensures var g := MoveDriver(f, a); var r := Act(Coarse(f), a);
      && FourValid(g.p) && Coarse(g) == r.w
      && (r.Next? ==> FineInv(g))
  {
    hide RingsOf, Handled, FourValid, DriverRings, Kept, Shaped, Step, DeferralSound;
    var r := Act(Coarse(f), a);
    SingleProducers(Coarse(f), a);
    RingSizes(r.w);
    HandledRings(f.p, r.w.bus.rings);
    DriverKeepsServer(Coarse(f), a);
    if r.Next? {
      ActInv(Coarse(f), a);
    }
  }

  lemma RingSizes(w: World)
    requires Shaped(w)
    ensures |w.bus.rings.reqFree| <= CAPACITY && |w.bus.rings.retUsed| <= CAPACITY
  {
  }

  /** The driver does not touch what the server holds. */
  lemma DriverKeepsServer(w: World, a: Action)
    requires Shaped(w) && !ServerAction(a)
    ensures Act(w, a).w.taking == w.taking && Act(w, a).w.held == w.held
  {
    hide Shape, CheckBuf, Irq, IrqIntended, Hardware, EndsRequest, NamesToken, Current;
  }

  // ---------- Runs ----------

  /** Where a run of moves ends, and the steps of the coarse runs it made; a crash of the driver ends it. */
  datatype FineRun = FineRun(f: Fine, done: seq<Action>, crashed: bool)

  ghost function RunFine(f: Fine, moves: seq<Move>): (r: FineRun)
    requires FineInv(f)
    ensures FourValid(r.f.p) && (!r.crashed ==> FineInv(r.f))
    decreases |moves|
  {
    hide FineInv, Simulates, ServerAction;
    if moves == [] then
      FineValid(f);
      FineRun(f, [], false)
    else
      match moves[0]
      case ServerMove(a) =>
        ServerSimulates(f, a);
        SimulatedValid(f, MoveServer(f, a));
        var m := MoveServer(f, a);
        var r := RunFine(m.f, moves[1..]);
        r.(done := m.done + r.done)
      case DriverMove(a) =>
        if ServerAction(a) then RunFine(f, moves[1..]) else
        FineValid(f);
        DriverSimulates(f, a);
        var g := MoveDriver(f, a);
        if Act(Coarse(f), a).Crash? then FineRun(g, [a], true) else
        var r := RunFine(g, moves[1..]);
        r.(done := [a] + r.done)
  }

  lemma FineValid(f: Fine)
    requires FineInv(f)
    ensures FourValid(f.p) && Inv(Coarse(f)) && Shaped(Coarse(f))
  {
  }

  lemma SimulatedValid(f: Fine, m: Advance)
    requires FineInv(f) && Simulates(f, m)
    ensures FineInv(m.f) && FourValid(f.p) && FourValid(m.f.p) && Shaped(Coarse(f))
    ensures if m.done == [] then Coarse(m.f) == Coarse(f)
      else |m.done| == 1 && Act(Coarse(f), m.done[0]) == Next(Coarse(m.f))
  {
  }

  /** Whatever the schedule of single accesses and handlers, the run is a run of the coarse steps it makes: the same
      bus, the same history, the same crash. */
  lemma {:induction false} RunSimulates(f: Fine, moves: seq<Move>)
    requires FineInv(f)
    ensures FourValid(f.p) && Shaped(Coarse(f))
    ensures var r := RunFine(f, moves); var n := Run(Coarse(f), r.done);
      n.w == Coarse(r.f) && (n.Crash? <==> r.crashed)
    decreases |moves|
  {
    hide FineInv, Simulates, Coarse, FourValid, Shaped, Act, Run, ServerAction, MoveServer, MoveDriver;
    FineValid(f);
    if moves == [] {
      RunNothing(Coarse(f));
    } else {
      match moves[0]
      case ServerMove(a) =>
        ServerSimulates(f, a);
        var m := MoveServer(f, a);
        SimulatedValid(f, m);
        RunSimulates(m.f, moves[1..]);
        var r := RunFine(m.f, moves[1..]);
        if m.done == [] {
          assert [] + r.done == r.done;
        } else {
          assert m.done == [m.done[0]];
          RunCons(Coarse(f), m.done[0], r.done);
        }
      case DriverMove(a) =>
        if ServerAction(a) {
          RunSimulates(f, moves[1..]);
        } else {
          DriverSimulates(f, a);
          var g := MoveDriver(f, a);
          if Act(Coarse(f), a).Crash? {
            RunCons(Coarse(f), a, []);
            assert [a] + [] == [a];
          } else {
            RunSimulates(g, moves[1..]);
            RunCons(Coarse(f), a, RunFine(g, moves[1..]).done);
          }
        }
    }
  }

  /** Turned initialisation nobody is in the middle of anything. */
  ghost predicate FineInitial(f: Fine) {
    && FourValid(f.p) && Initial(Coarse(f)) && f.w.bus.rings == NO_RINGS && f.doing.None?
    && f.p.reqFree.consumer.ConsumerIdle? && f.p.retUsed.consumer.ConsumerIdle?
    && f.p.reqUsed.producer.ProducerIdle? && f.p.retFree.producer.ProducerIdle?
  }

  /** So wherever single accesses can bring the bus, a coarse run stands, and what is proved of those holds. */
  lemma AccessesStand(f0: Fine, moves: seq<Move>)
    requires FineInitial(f0)
    ensures FineInv(f0)
    ensures var r := RunFine(f0, moves);
      exists popped :: StandsAt(Coarse(f0), r.done, Coarse(r.f), popped)
  {
    hide Kept, Shaped, RingsOf, Initial, Run, RunFine;
    InitialInv(Coarse(f0));
    RunSimulates(f0, moves);
    var n := Run(Coarse(f0), RunFine(f0, moves).done);
    assert StandsAt(Coarse(f0), RunFine(f0, moves).done, Coarse(RunFine(f0, moves).f),
      if n.Next? then [] else n.popped);
  }
}
