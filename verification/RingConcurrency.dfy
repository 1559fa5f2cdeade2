/**
 One producer and one consumer on a shared ring, interleaved at the granularity of single memory accesses.

 `enqueue` is four steps (test for space, store the address, store the length, publish the index), and
 `dequeue` is four (test for an element, read the address, read the length, publish the index).  Under
 every interleaving the ring behaves like a queue of capacity 511.  Steps are sequentially consistent;
 the C code places its release fence behind the index update.
 */
module RingConcurrency {
  import opened RingBuffer

  /** Where the producer is inside `enqueue(d)`. */
  datatype Producer = ProducerIdle | StoringAddr(d: Desc) | StoringLen(d: Desc) | Publishing(d: Desc)

  /** Where the consumer is inside `dequeue`. */
  datatype Consumer = ConsumerIdle | ReadingAddr | ReadingLen(addr: nat) | Consuming(d: Desc)

  datatype State = State(ring: RingMemory, producer: Producer, consumer: Consumer)

  /** One scheduling decision.  The descriptor is the argument of a newly called `enqueue`; it is unused
      when the producer is in the middle of a call. */
  datatype Turn = ProducerTurn(d: Desc) | ConsumerTurn

  /** What a caller sees of a step. */
  datatype Visible = Nothing | Enqueued(d: Desc) | RefusedFull | Dequeued(d: Desc) | RefusedEmpty

  datatype Effect = Effect(state: State, seen: Visible)

  function Access(s: State, t: Turn): Effect
    requires s.ring.Valid()
  {
    match t
    case ProducerTurn(d) =>
      (match s.producer
       case ProducerIdle =>
         if s.ring.Full() then Effect(s, RefusedFull)
         else Effect(s.(producer := StoringAddr(d)), Nothing)
       case StoringAddr(e) => Effect(s.(ring := s.ring.StoreAddr(e.addr), producer := StoringLen(e)), Nothing)
       case StoringLen(e) => Effect(s.(ring := s.ring.StoreLen(e.len), producer := Publishing(e)), Nothing)
       case Publishing(e) => Effect(s.(ring := s.ring.Publish(), producer := ProducerIdle), Enqueued(e)))
    case ConsumerTurn =>
      (match s.consumer
       case ConsumerIdle =>
         if s.ring.Empty() then Effect(s, RefusedEmpty)
         else Effect(s.(consumer := ReadingAddr), Nothing)
       case ReadingAddr => Effect(s.(consumer := ReadingLen(s.ring.slots[s.ring.ReadSlot()].addr)), Nothing)
       case ReadingLen(addr) =>
         Effect(s.(consumer := Consuming(Desc(addr, s.ring.slots[s.ring.ReadSlot()].len))), Nothing)
       case Consuming(e) => Effect(s.(ring := s.ring.Consume(), consumer := ConsumerIdle), Dequeued(e)))
  }

  /** What holds between any two steps: a producer past its test has space, and a consumer past its test
      has an element, of which it has read what is really there. */
  predicate Underway(s: State) {
    && s.ring.Valid()
    && (!s.producer.ProducerIdle? ==> s.ring.Used() < CAPACITY)
    && (s.producer.StoringLen? ==> s.ring.slots[s.ring.WriteSlot()].addr == s.producer.d.addr)
    && (s.producer.Publishing? ==> s.ring.slots[s.ring.WriteSlot()] == s.producer.d)
    && (!s.consumer.ConsumerIdle? ==> s.ring.Used() > 0)
    && (s.consumer.ReadingLen? ==> s.ring.slots[s.ring.ReadSlot()].addr == s.consumer.addr)
    && (s.consumer.Consuming? ==> s.ring.slots[s.ring.ReadSlot()] == s.consumer.d)
  }

  /** A step of a queue of capacity 511. */
  predicate QueueStep(q: seq<Desc>, seen: Visible, q': seq<Desc>) {
    match seen
    case Nothing => q' == q
    case Enqueued(d) => |q| < 511 && q' == q + [d]
    case RefusedFull => |q| == 511 && q' == q
    case Dequeued(d) => q == [d] + q'
    case RefusedEmpty => q == [] && q' == q
  }

  /** The slot being written is never the slot being read. */
  lemma SlotsApart(s: State)
    requires Underway(s) && !s.producer.ProducerIdle? && !s.consumer.ConsumerIdle?
    ensures s.ring.WriteSlot() != s.ring.ReadSlot()
  {
    s.ring.WriteSlotIsFree(0);
  }

  /** Every step of either side keeps the invariant and is a step of the queue. */
  lemma StepRefines(s: State, t: Turn)
    requires Underway(s)
    ensures Underway(Access(s, t).state)
    ensures QueueStep(s.ring.Contents(), Access(s, t).seen, Access(s, t).state.ring.Contents())
  {
    match t
    case ProducerTurn(d) => ProducerRefines(s, d);
    case ConsumerTurn => ConsumerRefines(s);
  }

  lemma ProducerRefines(s: State, d: Desc)
    requires Underway(s)
    ensures Underway(Access(s, ProducerTurn(d)).state)
    ensures var o := Access(s, ProducerTurn(d));
      QueueStep(s.ring.Contents(), o.seen, o.state.ring.Contents())
  {
    var m := s.ring;
    var k := m.WriteSlot();
    m.Tests();
    if !s.producer.ProducerIdle? && !s.consumer.ConsumerIdle? {
      SlotsApart(s);
    }
    match s.producer
    case ProducerIdle =>
    case StoringAddr(e) => m.StoreKeeps(m.slots[k].(addr := e.addr));
    case StoringLen(e) => m.StoreKeeps(m.slots[k].(len := e.len));
    case Publishing(e) => m.PublishAppends();
  }

  lemma ConsumerRefines(s: State)
    requires Underway(s)
    ensures Underway(Access(s, ConsumerTurn).state)
    ensures var o := Access(s, ConsumerTurn);
      QueueStep(s.ring.Contents(), o.seen, o.state.ring.Contents())
  {
    s.ring.Tests();
    if s.consumer.Consuming? {
      s.ring.ConsumeRemoves();
    }
  }

  // ---------- Whole runs ----------

  datatype Trace = Trace(state: State, seen: seq<Visible>)

  /** The state and the visible events after a schedule. */
  function Play(s: State, turns: seq<Turn>): (r: Trace)
    requires Underway(s)
    ensures Underway(r.state)
  {
    if turns == [] then Trace(s, []) else
    var before := Play(s, turns[..|turns| - 1]);
    StepRefines(before.state, turns[|turns| - 1]);
    var o := Access(before.state, turns[|turns| - 1]);
    Trace(o.state, before.seen + [o.seen])
  }

  /** The visible events are those of a queue that starts as `q` and ends as `q'`. */
  ghost predicate QueueRun(q: seq<Desc>, seen: seq<Visible>, q': seq<Desc>) {
    if seen == [] then q == q' else
    var init, last := seen[..|seen| - 1], seen[|seen| - 1];
    exists p :: QueueRun(q, init, p) && QueueStep(p, last, q')
  }

  function AllEnqueued(seen: seq<Visible>): seq<Desc> {
    if seen == [] then [] else
    var last := seen[|seen| - 1];
    AllEnqueued(seen[..|seen| - 1]) + if last.Enqueued? then [last.d] else []
  }

  function AllDequeued(seen: seq<Visible>): seq<Desc> {
    if seen == [] then [] else
    var last := seen[|seen| - 1];
    AllDequeued(seen[..|seen| - 1]) + if last.Dequeued? then [last.d] else []
  }

  /** Linearizability: under every schedule, from any index values, what the two callers see is a run of
      the queue: nothing is lost, duplicated, reordered or torn, and refusals are truthful. */
  lemma {:induction false} RunRefines(s: State, turns: seq<Turn>)
    requires Underway(s)
    ensures var r := Play(s, turns);
      QueueRun(s.ring.Contents(), r.seen, r.state.ring.Contents())
  {
    if turns != [] {
      hide RingMemory.Contents, Access, QueueStep;
      var init := turns[..|turns| - 1];
      RunRefines(s, init);
      var before := Play(s, init);
      StepRefines(before.state, turns[|turns| - 1]);
      var r := Play(s, turns);
      assert r.seen[..|r.seen| - 1] == before.seen;
    }
  }

  /** What came out is what went in, in order, short of what is still inside. */
  lemma {:induction false} QueueRunConserves(q: seq<Desc>, seen: seq<Visible>, q': seq<Desc>)
    requires QueueRun(q, seen, q')
    ensures AllDequeued(seen) + q' == q + AllEnqueued(seen)
  {
    if seen != [] {
      var init := seen[..|seen| - 1];
      var last := seen[|seen| - 1];
      var p :| QueueRun(q, init, p) && QueueStep(p, last, q');
      QueueRunConserves(q, init, p);
      assert AllDequeued(init) + [] == AllDequeued(init) && AllEnqueued(init) + [] == AllEnqueued(init);
      if last.Dequeued? {
        assert AllDequeued(seen) + q' == AllDequeued(init) + p;
      } else if last.Enqueued? {
        assert q + AllEnqueued(seen) == (q + AllEnqueued(init)) + [last.d];
        assert AllDequeued(init) + q' == (AllDequeued(init) + p) + [last.d];
      }
    }
  }

  /** Conservation over whole runs. */
  lemma RunConserves(s: State, turns: seq<Turn>)
    requires Underway(s)
    ensures var r := Play(s, turns);
      && |r.state.ring.Contents()| <= CAPACITY
      && AllDequeued(r.seen) + r.state.ring.Contents() == s.ring.Contents() + AllEnqueued(r.seen)
  {
    hide RingMemory.Contents, Access;
    RunRefines(s, turns);
    QueueRunConserves(s.ring.Contents(), Play(s, turns).seen, Play(s, turns).state.ring.Contents());
  }
}
