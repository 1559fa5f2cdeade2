/**
 Exactly once, in order: on every bus the submitted requests are the finished ones, then the one in
 progress, then the queued ones; and the headers returned to the server are those of the finished
 requests, in the same order.  Requests are compared with all their data, as memory holds it.
 */
module Ordering {
  import opened Tokens
  import opened Registers
  import opened RingBuffer
  import opened Memory
  import opened BusModel
  import opened BusRuns
  import opened Conservation

  predicate Ordered(w: World)
    requires Shaped(w)
  {
    && w.past.submitted == Requests(w.past.done) + Current(w.bus) + Waiting(w.bus)
    && Headers(w.past.done) == w.past.collected + Returned(w.bus)
    && (Busy(w.bus) ==> Answers(HeaderAt(w.bus, CurrentAnswer(w.bus)), Current(w.bus)[0]))
  }

  /** The header names the client and address of the request, and has the size of its chain. */
  predicate Answers(h: Header, r: Request) {
    h.client == r.client && h.target == r.target && h.size == |r.data|
  }

  /** From `b` to `c` at most the buffer at `q` was written. */
  ghost predicate OnlyWrote(b: Bus, c: Bus, q: nat)
    requires Shape(b) && Shape(c)
  {
    && SameRegion(b, c)
    && forall p: nat :: (InReq(b.base, p) || InRet(b.base, p)) && p != q ==>
         b.origin <= p && p - b.origin + BUF_SZ <= |b.mem| &&
         Buffer(c.mem, p - b.origin) == Buffer(b.mem, p - b.origin)
  }

  lemma StoreOnlyWrites(b: Bus, c: Bus, q: nat, o: nat, data: seq<byte>)
    requires Shape(b) && Shape(c) && SameRegion(b, c)
    requires InReq(b.base, q) || InRet(b.base, q)
    requires q - b.origin <= o && o + |data| <= q - b.origin + BUF_SZ && o + |data| <= |b.mem|
    requires c.mem == Store(b.mem, o, data)
    ensures OnlyWrote(b, c, q)
  {
    hide Shape, InReq, InRet, Store, Buffer;
    forall p: nat | (InReq(b.base, p) || InRet(b.base, p)) && p != q
      ensures b.origin <= p && p - b.origin + BUF_SZ <= |b.mem| &&
        Buffer(c.mem, p - b.origin) == Buffer(b.mem, p - b.origin)
    {
      StoreApart(b, c, q, o, data, p);
    }
  }

  lemma StoreApart(b: Bus, c: Bus, q: nat, o: nat, data: seq<byte>, p: nat)
    requires Shape(b) && Shape(c) && SameRegion(b, c) && p != q
    requires InReq(b.base, q) || InRet(b.base, q)
    requires InReq(b.base, p) || InRet(b.base, p)
    requires q - b.origin <= o && o + |data| <= q - b.origin + BUF_SZ
    requires c.mem == Store(b.mem, o, data)
    ensures b.origin <= p && p - b.origin + BUF_SZ <= |b.mem|
    ensures Buffer(c.mem, p - b.origin) == Buffer(b.mem, p - b.origin)
  {
    MemSize(b);
    MemSize(c);
    hide Shape, InReq, InRet, Store, Buffer;
    BuffersApart(b.base, p, q);
    StoreElsewhere(b.mem, o, data, p - b.origin);
  }

  lemma MemSize(b: Bus)
    requires Shape(b)
    ensures Mapped(b.origin, b.base, |b.mem|)
  {
  }

  /** Where the current request and return buffer are. */
  lemma BusyFacts(b: Bus)
    requires Shape(b) && Busy(b)
    ensures InReq(b.base, b.st.currentReq) && InRet(b.base, b.st.currentRet)
    ensures 0 <= b.st.remaining <= b.st.reqLen <= BUF_SZ - 2
  {
  }

  /** Buffers in different places are different buffers. */
  lemma Distinct(w: World)
    requires Shaped(w) && Conserved(w)
    ensures w.taking.Taking? ==> w.taking.buf !in Bag(w.bus.rings.reqUsed) && w.taking.buf != w.bus.st.currentReq
    ensures Busy(w.bus) ==> w.bus.st.currentRet !in Bag(w.bus.rings.retUsed)
    ensures w.bus.rings.retFree != [] ==> w.bus.rings.retFree[0].addr !in Bag(w.bus.rings.retUsed)
  {
    hide Bag;
    if w.taking.Taking? {
      PoolBag(w.bus.base, BUF_COUNT, w.taking.buf);
      assert ReqBag(w)[w.taking.buf] <= 1;
    }
    if Busy(w.bus) {
      PoolBag(w.bus.base + POOL_SZ, BUF_COUNT, w.bus.st.currentRet);
      assert RetBag(w)[w.bus.st.currentRet] <= 1;
    }
    var r := w.bus.rings;
    if r.retFree != [] {
      BagTail(r.retFree);
      PoolBag(w.bus.base + POOL_SZ, BUF_COUNT, r.retFree[0].addr);
      assert RetBag(w)[r.retFree[0].addr] <= 1;
    }
  }

  lemma WaitingSame(b: Bus, c: Bus, q: nat)
    requires Shape(b) && Shape(c) && OnlyWrote(b, c, q)
    requires c.rings.reqUsed == b.rings.reqUsed && q !in Bag(b.rings.reqUsed)
    ensures Waiting(c) == Waiting(b)
  {
    hide Buffer, Bag;
    forall i | 0 <= i < |b.rings.reqUsed| ensures Waiting(c)[i] == Waiting(b)[i] {
      var d := b.rings.reqUsed[i];
      assert d in b.rings.reqUsed;
      BagIn(b.rings.reqUsed, d.addr);
    }
  }

  lemma ReturnedSame(b: Bus, c: Bus, q: nat)
    requires Shape(b) && Shape(c) && OnlyWrote(b, c, q)
    requires c.rings.retUsed == b.rings.retUsed && q !in Bag(b.rings.retUsed)
    ensures Returned(c) == Returned(b)
  {
    hide Buffer, Bag;
    forall i | 0 <= i < |b.rings.retUsed| ensures Returned(c)[i] == Returned(b)[i] {
      var d := b.rings.retUsed[i];
      assert d in b.rings.retUsed;
      BagIn(b.rings.retUsed, d.addr);
    }
  }

  lemma CurrentSame(b: Bus, c: Bus, q: nat)
    requires Shape(b) && Shape(c) && OnlyWrote(b, c, q)
    requires c.st.currentReq == b.st.currentReq && c.st.reqLen == b.st.reqLen && q != b.st.currentReq
    ensures Current(c) == Current(b)
  {
  }

  lemma PoolsDisjoint(base: nat, p: nat, q: nat)
    requires InReq(base, p) && InRet(base, q)
    ensures p != q
  {
  }

  lemma NotQueued(b: Bus, p: nat)
    requires Shape(b)
    ensures InRet(b.base, p) ==> p !in Bag(b.rings.reqUsed)
    ensures InReq(b.base, p) ==> p !in Bag(b.rings.retUsed)
  {
    BagIn(b.rings.reqUsed, p);
    BagIn(b.rings.retUsed, p);
  }

  // ---------- Submitting ----------

  lemma WaitingSnoc(b: Bus, c: Bus, q: nat, d: Desc)
    requires Shape(b) && Shape(c) && OnlyWrote(b, c, q) && q !in Bag(b.rings.reqUsed)
    requires c.rings.reqUsed == b.rings.reqUsed + [d]
    ensures InReq(c.base, d.addr) && 2 <= d.len <= BUF_SZ && Waiting(c) == Waiting(b) + [RequestAt(c, d)]
  {
    hide Buffer, Bag;
    assert c.rings.reqUsed[|b.rings.reqUsed|] in c.rings.reqUsed;
    forall i | 0 <= i < |b.rings.reqUsed| ensures Waiting(c)[i] == Waiting(b)[i] {
      var e := b.rings.reqUsed[i];
      assert e in b.rings.reqUsed && c.rings.reqUsed[i] == e;
      BagIn(b.rings.reqUsed, e.addr);
    }
  }

  lemma HeaderSame(b: Bus, c: Bus, q: nat, d: Desc)
    requires Shape(b) && Shape(c) && OnlyWrote(b, c, q) && InRet(b.base, d.addr) && d.addr != q
    ensures InRet(c.base, d.addr) && HeaderAt(c, d) == HeaderAt(b, d)
  {
    hide Shape, InPool;
  }

  /** What submitting writes and queues. */
  lemma SubmitFacts(b: Bus, p: nat, req: Request)
    requires Shape(b) && InReq(b.base, p) && |req.data| <= BUF_SZ - 2 && |b.rings.reqUsed| < CAPACITY
    ensures var c := Submit(b, p, req.client, req.target, req.data); var d := Desc(p, |req.data| + 2);
      && Shape(c) && OnlyWrote(b, c, p)
      && c.rings == b.rings.(reqUsed := b.rings.reqUsed + [d]) && c.st == b.st && SameRegion(b, c)
      && RequestAt(c, d) == req
  {
    hide Store, Buffer, RequestIn, OnlyWrote;
    SubmitShape(b, p, req.client, req.target, req.data);
    var c := Submit(b, p, req.client, req.target, req.data);
    var data := [req.client, req.target] + req.data;
    MemSize(b);
    InRegion(b.base, p);
    StoreOnlyWrites(b, c, p, p - b.origin, data);
    StoredRequest(b.mem, p - b.origin, req);
  }

  lemma SubmitOrdered(w: World)
    requires Shaped(w) && Conserved(w) && Ordered(w) && w.taking.Taking?
    ensures Shaped(DoSubmit(w)) && Ordered(DoSubmit(w))
  {
    hide Bag, Submit, Shape, OnlyWrote, Conserved, InPool, RequestAt, HeaderAt, Waiting, Returned, Current;
    NoRingOverflows(w);
    Distinct(w);
    var t := w.taking;
    SubmitFacts(w.bus, t.buf, t.req);
    var v := DoSubmit(w);
    var b, c := w.bus, v.bus;
    NotQueued(b, t.buf);
    ReturnedSame(b, c, t.buf);
    CurrentSame(b, c, t.buf);
    WaitingSnoc(b, c, t.buf, Desc(t.buf, |t.req.data| + 2));
    if Busy(b) {
      BusyFacts(b);
      PoolsDisjoint(b.base, t.buf, b.st.currentRet);
      HeaderSame(b, c, t.buf, CurrentAnswer(b));
    }
    var x, y := Requests(w.past.done), Current(b);
    assert x + y + (Waiting(b) + [t.req]) == (x + y + Waiting(b)) + [t.req];
  }

  lemma StoredRequest(mem: seq<byte>, o: nat, r: Request)
    requires o + BUF_SZ <= |mem| && |r.data| <= BUF_SZ - 2
    ensures RequestIn(Buffer(Store(mem, o, [r.client, r.target] + r.data), o), |r.data| + 2) == r
  {
    var s := [r.client, r.target] + r.data;
    var buf := Buffer(Store(mem, o, s), o);
    assert buf[..|s|] == s;
    assert buf[0] == s[0] && buf[1] == s[1] && buf[2..|s|] == s[2..];
  }

  // ---------- Accepting ----------

  lemma WaitingTail(b: Bus, c: Bus, q: nat)
    requires Shape(b) && Shape(c) && OnlyWrote(b, c, q) && q !in Bag(b.rings.reqUsed)
    requires b.rings.reqUsed != [] && c.rings.reqUsed == b.rings.reqUsed[1..]
    ensures b.rings.reqUsed[0] in b.rings.reqUsed
    ensures Waiting(b) == [RequestAt(b, b.rings.reqUsed[0])] + Waiting(c)
  {
    hide Buffer, Bag;
    assert b.rings.reqUsed[0] in b.rings.reqUsed;
    forall i | 0 <= i < |c.rings.reqUsed| ensures Waiting(c)[i] == Waiting(b)[i + 1] {
      var e := b.rings.reqUsed[i + 1];
      assert e in b.rings.reqUsed && c.rings.reqUsed[i] == e;
      BagIn(b.rings.reqUsed, e.addr);
    }
  }

  lemma RequestSame(b: Bus, c: Bus, q: nat, d: Desc)
    requires Shape(b) && Shape(c) && OnlyWrote(b, c, q)
    requires InReq(b.base, d.addr) && 2 <= d.len <= BUF_SZ && d.addr != q
    ensures InReq(c.base, d.addr) && RequestAt(c, d) == RequestAt(b, d)
  {
    hide Shape, InPool;
  }

  /** What accepting writes: the header of the request it takes, into the return buffer it takes. */
  lemma AcceptFacts(b: Bus)
    requires Shape(b) && !Busy(b) && b.rings.reqUsed != [] && b.rings.retFree != []
    ensures var c := Accept(b); var d, r := b.rings.reqUsed[0], b.rings.retFree[0].addr;
      && Shape(c) && OnlyWrote(b, c, r)
      && InReq(b.base, d.addr) && 2 <= d.len <= BUF_SZ && InRet(b.base, r)
      && c.rings == b.rings.(reqUsed := b.rings.reqUsed[1..], retFree := b.rings.retFree[1..])
      && c.st.currentReq == d.addr != 0 && c.st.currentRet == r && c.st.reqLen == d.len - 2
      && Answers(HeaderAt(c, CurrentAnswer(c)), RequestAt(b, d))
  {
    AcceptShape(b);
    var c := Accept(b);
    var d, r := b.rings.reqUsed[0], b.rings.retFree[0].addr;
    assert d in b.rings.reqUsed && b.rings.retFree[0] in b.rings.retFree;
    MemSize(b);
    hide Shape, Store, OnlyWrote, HeaderIn;
    var o := d.addr - b.origin;
    InRegion(b.base, r);
    StoreOnlyWrites(b, c, r, r - b.origin + RET_BUF_CLIENT, [b.mem[o], b.mem[o + 1]]);
    StoredHeader(b.mem, r - b.origin, b.mem[o], b.mem[o + 1], d.len - 2);
  }

  lemma InRegion(base: nat, p: nat)
    requires InReq(base, p) || InRet(base, p)
    ensures base <= p && p + BUF_SZ <= base + REGION_SZ
  {
  }

  lemma AcceptOrdered(w: World, b: Bus)
    requires Shaped(w) && Conserved(w) && Ordered(w) && !Busy(w.bus)
    requires w.bus.rings.reqUsed != [] && w.bus.rings.retFree != [] && b == Accept(w.bus)
    ensures Shape(b) && SameRegion(w.bus, b) && Ordered(w.(bus := b))
  {
    hide Bag, Accept, Shape, OnlyWrote, Conserved, InPool, RequestAt, HeaderAt, Waiting, Returned;
    Distinct(w);
    AcceptFacts(w.bus);
    AcceptKeepsBase(w.bus);
    var a := w.bus;
    var d, r := a.rings.reqUsed[0], a.rings.retFree[0].addr;
    NotQueued(a, r);
    ReturnedSame(a, b, r);
    PoolsDisjoint(a.base, d.addr, r);
    WaitingTail(a, b, r);
    RequestSame(a, b, r, d);
    assert Current(a) == [] && Current(b) == [RequestAt(a, d)];
    assert Requests(w.past.done) + [] + ([RequestAt(a, d)] + Waiting(b)) ==
      Requests(w.past.done) + [RequestAt(a, d)] + Waiting(b);
  }

  lemma StoredHeader(mem: seq<byte>, o: nat, client: byte, target: byte, size: nat)
    requires o + BUF_SZ <= |mem|
    ensures var h := HeaderIn(Buffer(Store(mem, o + RET_BUF_CLIENT, [client, target]), o), size);
      h.client == client && h.target == target && h.size == size
  {
  }

  /** Ordering looks at memory, queues and the request in progress only. */
  lemma SameOrder(w: World, v: World)
    requires Shaped(w) && Shaped(v) && Ordered(w)
    requires v.bus.mem == w.bus.mem && SameRegion(w.bus, v.bus)
    requires v.bus.rings.reqUsed == w.bus.rings.reqUsed && v.bus.rings.retUsed == w.bus.rings.retUsed
    requires v.bus.st.currentReq == w.bus.st.currentReq && v.bus.st.currentRet == w.bus.st.currentRet
    requires v.bus.st.reqLen == w.bus.st.reqLen
    requires v.past.submitted == w.past.submitted && v.past.done == w.past.done
    requires v.past.collected == w.past.collected
    ensures Ordered(v)
  {
    hide Shape, InPool, RequestAt, HeaderAt, Waiting, Returned, Requests, Headers, Current;
    WaitingKept(w.bus, v.bus);
    ReturnedKept(w.bus, v.bus);
    CurrentKept(w.bus, v.bus);
  }

  lemma ReturnedKept(b: Bus, c: Bus)
    requires Shape(b) && Shape(c) && SameRegion(b, c) && b.mem == c.mem && b.rings.retUsed == c.rings.retUsed
    ensures Returned(c) == Returned(b)
  {
    hide Buffer;
  }

  lemma CheckBufOrdered(w: World, b: Bus)
    requires Shaped(w) && Conserved(w) && Ordered(w) && b == Settled(CheckBuf(w.bus))
    ensures Shape(b) && SameRegion(w.bus, b) && Ordered(w.(bus := b))
  {
    hide Ordered, LoadTokens, Accept, Settled;
    CheckBufShape(w.bus);
    CheckBufKeepsBase(w.bus);
    if CheckBuf(w.bus).Faulted? {
      assert w.(bus := b) == w;
    } else if w.bus.rings.reqUsed != [] && !Busy(w.bus) {
      var a := Accept(w.bus);
      AcceptOrdered(w, a);
      AcceptShape(w.bus);
      AcceptKeepsBase(w.bus);
      LoadKeeps(a);
      SameOrder(w.(bus := a), w.(bus := b));
    } else {
      SameOrder(w, w.(bus := b));
    }
  }

  lemma AcceptKeepsBase(b: Bus)
    requires Shape(b) && b.rings.reqUsed != [] && b.rings.retFree != []
    ensures SameRegion(b, Accept(b))
  {
  }

  // ---------- Interrupts ----------

  lemma RetPlace(b: Bus, p: nat)
    requires Shape(b) && InRet(b.base, p)
    ensures b.origin <= p && p - b.origin + BUF_SZ <= |b.mem|
  {
  }

  lemma ReportOrdered(w: World, ctl: bv32, timeout: bool)
    requires Shaped(w) && Conserved(w) && Ordered(w) && Busy(w.bus)
    ensures Shape(Report(w.bus, ctl, timeout))
    ensures Ordered(w.(bus := Report(w.bus, ctl, timeout)))
  {
    hide Bag, Store, Failed, Shape, Conserved, Current, Waiting, Returned, Requests, Headers, Buffer,
      OnlyWrote, InReq, InRet;
    ReportShape(w.bus, ctl, timeout);
    Distinct(w);
    var a, b := w.bus, Report(w.bus, ctl, timeout);
    var r := a.st.currentRet;
    BusyFacts(a);
    RetPlace(a, r);
    var report := [ReportedCode(ctl, timeout), ReportedToken(ctl)];
    StoreOnlyWrites(a, b, r, r - a.origin, report);
    NotQueued(a, r);
    ReturnedSame(a, b, r);
    WaitingSame(a, b, r);
    PoolsDisjoint(a.base, a.st.currentReq, r);
    CurrentSame(a, b, r);
    KeptHeader(a.mem, r - a.origin, report, a.st.reqLen);
  }

  lemma KeptHeader(mem: seq<byte>, o: nat, report: seq<byte>, size: nat)
    requires o + BUF_SZ <= |mem| && |report| == 2
    ensures HeaderIn(Buffer(Store(mem, o, report), o), size) ==
      HeaderIn(Buffer(mem, o), size).(code := report[0], token := report[1])
  {
    var m := Store(mem, o, report);
    assert m[o] == report[0] && m[o + 1] == report[1];
    assert m[o + RET_BUF_CLIENT] == mem[o + RET_BUF_CLIENT];
    assert m[o + RET_BUF_ADDR] == mem[o + RET_BUF_ADDR];
  }

  /** The return buffer holds the code and the token that are reported. */
  lemma ReportedHeader(b: Bus, ctl: bv32, timeout: bool)
    requires Shape(b) && Busy(b)
    ensures Shape(Report(b, ctl, timeout)) && InRet(b.base, b.st.currentRet)
    ensures var h := HeaderAt(Report(b, ctl, timeout), CurrentAnswer(b));
      h.code == ReportedCode(ctl, timeout) && h.token == ReportedToken(ctl)
  {
    MemSize(b);
    BusyFacts(b);
    ReportShape(b, ctl, timeout);
    ReportKeeps(b, ctl, timeout);
    InRegion(b.base, b.st.currentRet);
    hide Failed, Store, Shape, ReportedCode, ReportedToken;
    KeptHeader(b.mem, b.st.currentRet - b.origin, [ReportedCode(ctl, timeout), ReportedToken(ctl)], b.st.reqLen);
  }

  /** Code and token say what the interrupt that ended the request was. */
  lemma AnswerOf(h: Header, e: Done)
    requires Answers(h, e.req) && h.code == ReportedCode(e.ctl, e.timeout) && h.token == ReportedToken(e.ctl)
    ensures h == HeaderOf(e)
  {
    DoneFailed(e);
  }

  lemma CompleteFacts(w: World)
    requires Shaped(w) && Conserved(w) && Busy(w.bus)
    ensures var b, c := w.bus, Complete(w.bus);
      && Shape(c) && SameRegion(b, c) && c.mem == b.mem && c.rings.reqUsed == b.rings.reqUsed
      && c.rings.retUsed == b.rings.retUsed + [Desc(b.st.currentRet, b.st.reqLen)] && !Busy(c)
  {
    hide Bag;
    CompleteShape(w.bus);
    NoRingOverflows(w);
  }

  lemma ReturnedSnoc(b: Bus, c: Bus, d: Desc)
    requires Shape(b) && Shape(c) && SameRegion(b, c) && b.mem == c.mem
    requires c.rings.retUsed == b.rings.retUsed + [d]
    ensures InRet(b.base, d.addr) && Returned(c) == Returned(b) + [HeaderAt(b, d)]
  {
    hide Buffer;
    assert c.rings.retUsed[|b.rings.retUsed|] in c.rings.retUsed;
  }

  lemma WaitingKept(b: Bus, c: Bus)
    requires Shape(b) && Shape(c) && SameRegion(b, c) && b.mem == c.mem && b.rings.reqUsed == c.rings.reqUsed
    ensures Waiting(c) == Waiting(b)
  {
    hide Buffer;
  }

  lemma CompleteOrdered(w: World, done: Done)
    requires Shaped(w) && Conserved(w) && Ordered(w) && Busy(w.bus) && done.req == Current(w.bus)[0]
    requires InRet(w.bus.base, w.bus.st.currentRet) && HeaderAt(w.bus, CurrentAnswer(w.bus)) == HeaderOf(done)
    ensures Shape(Complete(w.bus)) && SameRegion(w.bus, Complete(w.bus))
    ensures Ordered(w.(bus := Complete(w.bus), past := w.past.(done := w.past.done + [done])))
  {
    hide Bag, Complete, Shape, Conserved, InPool, RequestAt, HeaderAt, Waiting, Returned;
    CompleteFacts(w);
    var a, b := w.bus, Complete(w.bus);
    BusyFacts(a);
    WaitingKept(a, b);
    ReturnedSnoc(a, b, Desc(a.st.currentRet, a.st.reqLen));
    assert Requests(w.past.done + [done]) == Requests(w.past.done) + [done.req];
    assert Headers(w.past.done + [done]) == Headers(w.past.done) + [HeaderOf(done)];
    assert Current(b) == [] && Current(a) == [done.req];
    var c, x := w.past.collected, HeaderOf(done);
    assert c + (Returned(a) + [x]) == (c + Returned(a)) + [x];
    assert (Requests(w.past.done) + [done.req]) + [] == Requests(w.past.done) + [done.req];
  }

  /** The state after a request has been returned, before the driver looks for the next one. */
  function Ended(w: World, ctl: bv32, timeout: bool, done: Done): World
    requires Shaped(w) && Busy(w.bus)
  {
    ReportShape(w.bus, ctl, timeout);
    w.(bus := Complete(Report(w.bus, ctl, timeout)), past := w.past.(done := w.past.done + [done]))
  }

  lemma OrderedAnswer(w: World)
    requires Shaped(w) && Ordered(w) && Busy(w.bus)
    ensures |Current(w.bus)| == 1 && InRet(w.bus.base, w.bus.st.currentRet)
    ensures Answers(HeaderAt(w.bus, CurrentAnswer(w.bus)), Current(w.bus)[0])
  {
  }

  lemma EndedOrdered(w: World, ctl: bv32, timeout: bool, done: Done)
    requires Shaped(w) && Conserved(w) && Ordered(w) && Busy(w.bus)
    requires done.req == Current(w.bus)[0] && done.ctl == ctl && done.timeout == timeout
    ensures var u := Ended(w, ctl, timeout, done);
      Shaped(u) && Conserved(u) && Ordered(u) && SameRegion(w.bus, u.bus)
  {
    hide Ordered, Conserved, Report, Complete, Shape, Current, Failed, HeaderAt, HeaderOf, Answers,
      ReportedCode, ReportedToken;
    ReportShape(w.bus, ctl, timeout);
    ReportedHeader(w.bus, ctl, timeout);
    ReportKeeps(w.bus, ctl, timeout);
    ReportOrdered(w, ctl, timeout);
    CurrentReported(w.bus, ctl, timeout);
    var v := w.(bus := Report(w.bus, ctl, timeout));
    OrderedAnswer(v);
    AnswerOf(HeaderAt(v.bus, CurrentAnswer(v.bus)), done);
    SameRings(w, v);
    CompleteOrdered(v, done);
    CompleteConserves(w, ctl, timeout);
    SamePlaces(w.(bus := Complete(v.bus)), Ended(w, ctl, timeout, done));
  }

  /** An interrupt that does not end the request. */
  lemma ContinuedOrdered(w: World, ctl: bv32, timeout: bool, b: Bus, p: Work)
    requires Shaped(w) && Conserved(w) && Ordered(w) && Busy(w.bus) && Shape(b)
    requires !EndsRequest(w.bus, ctl) && Shape(Report(w.bus, ctl, timeout))
    requires b == LoadTokens(Report(w.bus, ctl, timeout)).bus && SameRegion(w.bus, b)
    requires Shaped(AfterInterrupt(w, b, ctl, timeout, p))
    ensures Ordered(AfterInterrupt(w, b, ctl, timeout, p))
  {
    hide Ordered, Conserved, LoadTokens, Failed, NamesToken, Report, Shape, AddressField, Current;
    ReportKeeps(w.bus, ctl, timeout);
    ReportOrdered(w, ctl, timeout);
    var b1 := Report(w.bus, ctl, timeout);
    LoadKeeps(b1);
    SameOrder(w.(bus := b1), AfterInterrupt(w, b, ctl, timeout, p));
  }

  /** An interrupt that ends the request, and perhaps starts the next one. */
  lemma FinishedOrdered(w: World, ctl: bv32, timeout: bool, b: Bus, p: Work, done: Done)
    requires Shaped(w) && Conserved(w) && Ordered(w) && Busy(w.bus) && Shape(b) && SameRegion(w.bus, b)
    requires EndsRequest(w.bus, ctl) && done.req == Current(w.bus)[0]
    requires done.ctl == ctl && done.timeout == timeout
    requires Shaped(Ended(w, ctl, timeout, done))
    requires b == Ended(w, ctl, timeout, done).bus || b == Settled(CheckBuf(Ended(w, ctl, timeout, done).bus))
    ensures Ordered(Ended(w, ctl, timeout, done).(bus := b))
  {
    hide Ordered, Conserved, Ended, CheckBuf, Shape, Failed, Current;
    EndedOrdered(w, ctl, timeout, done);
    var u := Ended(w, ctl, timeout, done);
    if b != u.bus {
      CheckBufOrdered(u, b);
    }
  }

  lemma IrqOrdered(w: World, ctl: bv32, timeout: bool, b: Bus, p: Work)
    requires Shaped(w) && Conserved(w) && Ordered(w) && w.bus.started && Busy(w.bus)
    requires Shape(b) && SameRegion(w.bus, b) && Shaped(AfterInterrupt(w, b, ctl, timeout, p))
    requires b == Settled(Irq(w.bus, ctl, timeout)) || b == Settled(IrqIntended(w.bus, ctl, timeout))
    ensures Ordered(AfterInterrupt(w, b, ctl, timeout, p))
  {
    hide Ordered, Conserved, LoadTokens, Complete, CheckBuf, Failed, NamesToken, Report, Shape, AddressField, Current;
    StartedBusy(w.bus);
    IrqEnds(w.bus, ctl, timeout);
    if !EndsRequest(w.bus, ctl) {
      ContinuedOrdered(w, ctl, timeout, b, p);
    } else {
      CurrentOne(w.bus);
      var n := AfterInterrupt(w, b, ctl, timeout, p);
      var done := n.past.done[|w.past.done|];
      EndedOrdered(w, ctl, timeout, done);
      FinishedOrdered(w, ctl, timeout, b, p, done);
      SameOrder(Ended(w, ctl, timeout, done).(bus := b), n);
    }
  }

  lemma CurrentOne(b: Bus)
    requires Shape(b) && Busy(b)
    ensures |Current(b)| == 1
  {
  }

  lemma ReportKeeps(b: Bus, ctl: bv32, timeout: bool)
    requires Shape(b) && Busy(b)
    ensures var c := Report(b, ctl, timeout);
      c.rings == b.rings && c.st == b.st && SameRegion(b, c) && !c.started
  {
  }

  lemma CurrentReported(b: Bus, ctl: bv32, timeout: bool)
    requires Shape(b) && Busy(b)
    ensures Shape(Report(b, ctl, timeout)) && Current(Report(b, ctl, timeout)) == Current(b)
  {
    hide Failed, Store;
    ReportShape(b, ctl, timeout);
    var report := [ReportedCode(ctl, timeout), ReportedToken(ctl)];
    StoreOnlyWrites(b, Report(b, ctl, timeout), b.st.currentRet, b.st.currentRet - b.origin, report);
    PoolsDisjoint(b.base, b.st.currentReq, b.st.currentRet);
    CurrentSame(b, Report(b, ctl, timeout), b.st.currentRet);
  }

  // ---------- The server's other steps ----------

  lemma ReturnedTail(b: Bus, c: Bus)
    requires Shape(b) && Shape(c) && SameRegion(b, c) && b.mem == c.mem
    requires b.rings.retUsed != [] && c.rings.retUsed == b.rings.retUsed[1..]
    ensures b.rings.retUsed[0] in b.rings.retUsed
    ensures Returned(b) == [HeaderAt(b, b.rings.retUsed[0])] + Returned(c)
  {
    hide Buffer;
    assert b.rings.retUsed[0] in b.rings.retUsed;
  }

  lemma CurrentKept(b: Bus, c: Bus)
    requires Shape(b) && Shape(c) && SameRegion(b, c) && b.mem == c.mem
    requires c.st.currentReq == b.st.currentReq && c.st.currentRet == b.st.currentRet && c.st.reqLen == b.st.reqLen
    ensures Current(c) == Current(b)
    ensures Busy(b) ==>
      InRet(b.base, b.st.currentRet) && HeaderAt(c, CurrentAnswer(c)) == HeaderAt(b, CurrentAnswer(b))
  {
  }

  lemma PopFacts(w: World)
    requires Shaped(w) && w.held == 0 && w.bus.rings.retUsed != []
    ensures InRet(w.bus.base, w.bus.rings.retUsed[0].addr)
    ensures var v := DoPop(w); var x := HeaderAt(w.bus, w.bus.rings.retUsed[0]);
      && Shaped(v) && v.bus == PopRet(w.bus)
      && v.past == w.past.(collected := w.past.collected + [x])
  {
    hide Shape, HeaderAt;
    PopShaped(w);
    PopPlace(w.bus);
  }

  lemma PopPlace(b: Bus)
    requires Shape(b) && b.rings.retUsed != []
    ensures InRet(b.base, b.rings.retUsed[0].addr)
  {
    assert b.rings.retUsed[0] in b.rings.retUsed;
  }

  lemma PopOrdered(w: World)
    requires Shaped(w) && Ordered(w) && w.held == 0 && w.bus.rings.retUsed != []
    ensures Shaped(DoPop(w)) && Ordered(DoPop(w))
  {
    hide Shape, InPool, RequestAt, HeaderAt, Waiting, Returned, Requests, Headers, Current, DoPop, InRet;
    PopFacts(w);
    var v := DoPop(w);
    CurrentKept(w.bus, v.bus);
    ReturnedTail(w.bus, v.bus);
    WaitingKept(w.bus, v.bus);
    var c, x := w.past.collected, HeaderAt(w.bus, w.bus.rings.retUsed[0]);
    assert c + ([x] + Returned(v.bus)) == (c + [x]) + Returned(v.bus);
  }

  /** Every step keeps the order: nothing is lost, duplicated or reordered, with or without errors. */
  lemma StepOrdered(w: World, a: Action)
    requires Shaped(w) && Conserved(w) && Ordered(w)
    ensures Shaped(Standing(Step(w, a))) && Ordered(Standing(Step(w, a)))
  {
    hide Ordered, Conserved, Shape, Submit, DoSubmit, DoPop, CheckBuf, Irq, IrqIntended, Hardware, AfterInterrupt,
         DoInterrupt, DoInterruptIntended, Settled;
    StepShaped(w, a);
    var n := Standing(Step(w, a));
    match a
    case Take(req) => SameOrder(w, n);
    case Submitting => DoSubmitOrdered(w);
    case Notify =>
      NotifyStands(w);
      CheckBufOrdered(w, Settled(CheckBuf(w.bus)));
      SameOrder(w.(bus := Settled(CheckBuf(w.bus))), n);
    case Interrupt(ctl, timeout, performed, hw) =>
      if CanInterrupt(w, ctl) {
        StartedBusy(w.bus);
        InterruptStands(w, ctl, timeout, performed, hw);
        IrqOrdered(w, ctl, timeout, Settled(Irq(w.bus, ctl, timeout)), Hardware(w, ctl, timeout, performed, hw));
      }
    case InterruptIntended(ctl, timeout, performed, hw) =>
      if CanInterrupt(w, ctl) {
        StartedBusy(w.bus);
        InterruptStands(w, ctl, timeout, performed, hw);
        IrqOrdered(w, ctl, timeout, Settled(IrqIntended(w.bus, ctl, timeout)),
          Hardware(w, ctl, timeout, performed, hw));
      }
    case Pop => DoPopOrdered(w);
    case Release => SameOrder(w, n);
  }

  lemma DoSubmitOrdered(w: World)
    requires Shaped(w) && Conserved(w) && Ordered(w)
    ensures Shaped(DoSubmit(w)) ==> Ordered(DoSubmit(w))
  {
    hide Ordered, Conserved, Shape, Submit;
    if w.taking.Taking? {
      SubmitOrdered(w);
    }
  }

  lemma DoPopOrdered(w: World)
    requires Shaped(w) && Ordered(w)
    ensures Shaped(DoPop(w)) ==> Ordered(DoPop(w))
  {
    hide Ordered, Shape;
    if w.held == 0 && w.bus.rings.retUsed != [] {
      PopOrdered(w);
    }
  }
}
