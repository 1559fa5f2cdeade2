/**
 The transport between server and driver as objects: per bus, a request and a return ring handle and the
 bus's part of the shared buffer region.  Every operation is proved to change the four queues and the
 memory exactly as the functions of module BusModel say.
 */
module Transport {
  import opened Tokens
  import opened RingBuffer
  import opened Memory
  import opened BusModel
  import opened Registers

  /** A free and a used ring. */
  datatype RingHandle = RingHandle(freeRing: Ring, usedRing: Ring)

  class Channel {
    const origin: nat
    const base: nat
    const req: RingHandle
    const ret: RingHandle
    const mem: array<byte>

    /** The objects that belong to this channel alone. */
    ghost function Own(): set<object> {
      {req.freeRing, req.usedRing, ret.freeRing, ret.usedRing,
       req.freeRing.buffers, req.usedRing.buffers, ret.freeRing.buffers, ret.usedRing.buffers}
    }

    /** The objects the channel is made of; memory is shared with the other channel. */
    ghost function Repr(): set<object> {
      Own() + {mem}
    }

    /** The four rings are different objects in different memory. */
    static ghost predicate Apart(req: RingHandle, ret: RingHandle) {
      && req.freeRing != req.usedRing && req.freeRing != ret.freeRing && req.freeRing != ret.usedRing
      && req.usedRing != ret.freeRing && req.usedRing != ret.usedRing && ret.freeRing != ret.usedRing
      && req.freeRing.buffers != req.usedRing.buffers && req.freeRing.buffers != ret.freeRing.buffers
      && req.freeRing.buffers != ret.usedRing.buffers && req.usedRing.buffers != ret.freeRing.buffers
      && req.usedRing.buffers != ret.usedRing.buffers && ret.freeRing.buffers != ret.usedRing.buffers
    }

    ghost predicate RingsValid()
      reads Repr()
    {
      Apart(req, ret) && Mapped(origin, base, mem.Length) &&
      req.freeRing.Valid() && req.usedRing.Valid() && ret.freeRing.Valid() && ret.usedRing.Valid()
    }

    /** The channel as an idle bus. */
    ghost function View(): Bus
      requires RingsValid()
      reads Repr()
    {
      Bus(origin, base,
          Rings(req.freeRing.Contents(), req.usedRing.Contents(), ret.freeRing.Contents(), ret.usedRing.Contents()),
          mem[..], IDLE, 0, EMPTY, false)
    }

    ghost predicate Valid()
      reads Repr()
    {
      RingsValid() && Shape(View())
    }

    /** The channel over four rings and a buffer region that starts at `base`, in the memory at `origin`.
        Fresh shared memory is zero, so all rings are empty. */
    constructor (origin: nat, base: nat, req: RingHandle, ret: RingHandle, mem: array<byte>)
      requires Mapped(origin, base, mem.Length)
      requires forall r <- [req.freeRing, req.usedRing, ret.freeRing, ret.usedRing] :: r.Valid() && r.Contents() == []
      requires Apart(req, ret)
      ensures Valid() && this.origin == origin && this.base == base
      ensures this.req == req && this.ret == ret && this.mem == mem
      ensures View().rings == Rings([], [], [], [])
    {
      this.origin := origin;
      this.base := base;
      this.req := req;
      this.ret := ret;
      this.mem := mem;
      new;
      var rings := [req.freeRing, req.usedRing, ret.freeRing, ret.usedRing];
      assert rings[0] in rings && rings[1] in rings && rings[2] in rings && rings[3] in rings;
      EmptyShape(View());
    }

    /** `ring_init` of both handles. */
    method InitRings()
      requires RingsValid()
      modifies Own()
      ensures RingsValid() && View() == old(View()).(rings := Rings([], [], [], []))
    {
      req.freeRing.Init();
      req.usedRing.Init();
      ret.freeRing.Init();
      ret.usedRing.Init();
    }

    method FreeReq(p: nat)
      requires RingsValid()
      modifies req.freeRing, req.freeRing.buffers
      ensures RingsValid()
      ensures View() == old(View()).(rings :=
        old(View()).rings.(reqFree := BusModel.Enqueue(old(View()).rings.reqFree, Desc(p, BUF_SZ))))
    {
      var r := req.freeRing.Enqueue(p, BUF_SZ);
    }

    method FreeRet(p: nat)
      requires RingsValid()
      modifies ret.freeRing, ret.freeRing.buffers
      ensures RingsValid()
      ensures View() == old(View()).(rings :=
        old(View()).rings.(retFree := BusModel.Enqueue(old(View()).rings.retFree, Desc(p, BUF_SZ))))
    {
      var r := ret.freeRing.Enqueue(p, BUF_SZ);
    }

    /** Queues the `i`-th buffer of each pool as free. */
    method FreeOne(i: nat)
      requires RingsValid() && i < BUF_COUNT
      requires View().rings == FreeRings(base, i)
      modifies Own()
      ensures RingsValid() && View() == old(View()).(rings := FreeRings(base, i + 1))
    {
      hide Pool, View, RingsValid;
      PoolSnoc(base, i);
      PoolSnoc(base + POOL_SZ, i);
      FreeReq(base + i * BUF_SZ);
      FreeRet(base + BUF_SZ * (i + BUF_COUNT));
    }

    method ReqBufEmpty() returns (r: bool)
      requires RingsValid()
      ensures RingsValid() && View() == old(View()) && r == (View().rings.reqUsed == [])
    {
      r := req.usedRing.IsEmpty();
    }

    method RetBufEmpty() returns (r: bool)
      requires RingsValid()
      ensures RingsValid() && View() == old(View()) && r == (View().rings.retUsed == [])
    {
      r := ret.usedRing.IsEmpty();
    }

    lemma InPlace()
      requires RingsValid()
      ensures View().origin == origin && View().base == base && View().mem == mem[..]
      ensures Mapped(origin, base, mem.Length)
    {
    }

    /** Writes header and data at offset `o` of memory. */
    method WriteBytes(o: nat, data: seq<byte>, client: byte, addr: byte)
      requires o + 2 + |data| <= mem.Length
      modifies mem
      ensures mem[..] == Store(old(mem[..]), o, [client, addr] + data)
    {
      ghost var before := mem[..];
      mem[o] := client;
      mem[o + 1] := addr;
      forall k | 0 <= k < |data| {
        mem[o + 2 + k] := data[k];
      }
      Stored(before, o, client, addr, data, mem[..]);
    }

    /** Writes header and data into the buffer at `p`. */
    method WriteRequest(p: nat, data: seq<byte>, client: byte, addr: byte)
      requires RingsValid() && base <= p && p + BUF_SZ <= base + REGION_SZ && |data| <= BUF_SZ - 2
      modifies mem
      ensures RingsValid()
      ensures View() == old(View()).(mem := Store(old(View()).mem, p - origin, [client, addr] + data))
    {
      hide Store;
      WriteBytes(p - origin, data, client, addr);
    }

    /** Queues the request in the buffer at `p`, or gives the buffer back when the used ring is full. */
    method QueueRequest(p: nat, size: nat) returns (buf: nat)
      requires RingsValid() && p != 0
      modifies Own()
      ensures RingsValid()
      ensures buf == if |old(View()).rings.reqUsed| == CAPACITY then 0 else p
      ensures View() == old(View()).(rings := if |old(View()).rings.reqUsed| == CAPACITY
        then old(View()).rings.(reqFree := Enqueue(old(View()).rings.reqFree, Desc(p, BUF_SZ)))
        else old(View()).rings.(reqUsed := old(View()).rings.reqUsed + [Desc(p, size)]))
    {
      var r := req.usedRing.Enqueue(p, size);
      if r != 0 {
        var e := req.freeRing.Enqueue(p, BUF_SZ);
        return 0;
      }
      return p;
    }

    /** Takes a free request buffer; -1 when there is none. */
    method TakeFree() returns (r: int, p: nat)
      requires RingsValid()
      modifies Own()
      ensures RingsValid()
      ensures r == if old(View()).rings.reqFree == [] then -1 else 0
      ensures if r != 0 then View() == old(View())
        else p == old(View()).rings.reqFree[0].addr && View() == TakeReq(old(View()))
    {
      var sz;
      r, p, sz := req.freeRing.Dequeue();
    }

    /** Queues a request, or returns 0 when it is too long or no buffer is free. */
    method AllocReqBuf(data: seq<byte>, client: byte, addr: byte) returns (buf: nat)
      requires Valid()
      modifies Repr()
      ensures Valid()
      ensures buf == 0 <==> |data| > BUF_SZ - 2 || old(View()).rings.reqFree == [] ||
                            |old(View()).rings.reqUsed| == CAPACITY
      ensures |data| > BUF_SZ - 2 || old(View()).rings.reqFree == [] ==> View() == old(View())
      ensures |data| <= BUF_SZ - 2 && old(View()).rings.reqFree != [] ==>
        InReq(base, old(View()).rings.reqFree[0].addr) && Shape(TakeReq(old(View()))) &&
        View() == Submit(TakeReq(old(View())), old(View()).rings.reqFree[0].addr, client, addr, data)
    {
      hide RingsValid, View, Shape, BusModel.Enqueue, Submit, Store;
      if |data| > BUF_SZ - 2 {
        return 0;
      }
      ghost var before := View();
      var r, p := TakeFree();
      if r != 0 {
        return 0;
      }
      TakeShape(before);
      InPlace();
      ghost var taken := View();
      WriteRequest(p, data, client, addr);
      buf := QueueRequest(p, |data| + 2);
      SubmitIs(taken, p, client, addr, data);
      SubmitShape(taken, p, client, addr, data);
    }

    /** Takes a free return buffer, or returns 0. */
    method GetRetBuf() returns (buf: nat)
      requires RingsValid()
      modifies Own()
      ensures RingsValid() && mem[..] == old(mem[..])
      ensures old(View()).rings.retFree == [] ==> buf == 0 && View() == old(View())
      ensures old(View()).rings.retFree != [] ==>
        buf == old(View()).rings.retFree[0].addr &&
        View() == old(View()).(rings := old(View()).rings.(retFree := old(View()).rings.retFree[1..]))
    {
      var r, p, sz := ret.freeRing.Dequeue();
      if r != 0 {
        return 0;
      }
      return p;
    }

    /** Queues a return buffer for the server; -1 on success. */
    method PushRetBuf(buf: nat, size: nat) returns (r: int)
      requires RingsValid()
      modifies Own()
      ensures RingsValid() && mem[..] == old(mem[..])
      ensures r == if size > BUF_SZ || buf == 0 || |old(View()).rings.retUsed| == CAPACITY then 0 else -1
      ensures View() == if size > BUF_SZ || buf == 0 then old(View())
        else old(View()).(rings :=
          old(View()).rings.(retUsed := Enqueue(old(View()).rings.retUsed, Desc(buf, size))))
    {
      if size > BUF_SZ || buf == 0 {
        return 0;
      }
      var e := ret.usedRing.Enqueue(buf, size);
      return if e != 0 then 0 else -1;
    }

    /** Pops the next request, or returns 0. */
    method PopReqBuf() returns (buf: nat, size: nat)
      requires RingsValid()
      modifies Own()
      ensures RingsValid() && mem[..] == old(mem[..])
      ensures old(View()).rings.reqUsed == [] ==> buf == 0 && View() == old(View())
      ensures old(View()).rings.reqUsed != [] ==>
        Desc(buf, size) == old(View()).rings.reqUsed[0] &&
        View() == PopReq(old(View()))
    {
      var r, p, sz := req.usedRing.Dequeue();
      if r != 0 {
        return 0, 0;
      }
      return p, sz;
    }

    /** Pops the next return buffer, or returns 0. */
    method PopRetBuf() returns (buf: nat, size: nat)
      requires Valid()
      modifies Own()
      ensures Valid() && mem[..] == old(mem[..])
      ensures old(View()).rings.retUsed == [] ==> buf == 0 && View() == old(View())
      ensures old(View()).rings.retUsed != [] ==>
        Desc(buf, size) == old(View()).rings.retUsed[0] && InRet(base, buf) && View() == PopRet(old(View()))
    {
      ghost var before := View();
      var r, p, sz := ret.usedRing.Dequeue();
      if r != 0 {
        return 0, 0;
      }
      PopShape(before);
      assert View() == PopRet(before);
      return p, sz;
    }

    /** Gives a request buffer back; -1 on success. */
    method ReleaseReqBuf(buf: nat) returns (r: int)
      requires RingsValid()
      modifies Own()
      ensures RingsValid() && mem[..] == old(mem[..])
      ensures r == if buf == 0 || |old(View()).rings.reqFree| == CAPACITY then 0 else -1
      ensures View() == if buf == 0 then old(View())
        else old(View()).(rings :=
          old(View()).rings.(reqFree := Enqueue(old(View()).rings.reqFree, Desc(buf, BUF_SZ))))
    {
      if buf == 0 {
        return 0;
      }
      var e := req.freeRing.Enqueue(buf, BUF_SZ);
      return if e != 0 then 0 else -1;
    }

    /** Gives a return buffer back; -1 on success. */
    method ReleaseRetBuf(buf: nat) returns (r: int)
      requires Valid() && (buf != 0 ==> InRet(base, buf))
      modifies Own()
      ensures Valid() && mem[..] == old(mem[..])
      ensures r == if buf == 0 || |old(View()).rings.retFree| == CAPACITY then 0 else -1
      ensures View() == if buf == 0 then old(View()) else ReleaseRet(old(View()), buf)
    {
      if buf == 0 {
        return 0;
      }
      ghost var before := View();
      var e := ret.freeRing.Enqueue(buf, BUF_SZ);
      assert View() == ReleaseRet(before, buf);
      ReleaseShape(before, buf);
      return if e != 0 then 0 else -1;
    }
  }

  lemma EmptyShape(b: Bus)
    requires Mapped(b.origin, b.base, |b.mem|) && b.st == IDLE && !b.started && b.rings == Rings([], [], [], [])
    ensures Shape(b)
  {
  }

  lemma PoolShape(b: Bus)
    requires Mapped(b.origin, b.base, |b.mem|) && b.st == IDLE && !b.started
    requires b.rings == FreeRings(b.base, BUF_COUNT)
    ensures Shape(b)
  {
    forall d <- b.rings.reqFree ensures InReq(b.base, d.addr) {
      var j :| 0 <= j < BUF_COUNT && d == b.rings.reqFree[j];
    }
    forall d <- b.rings.retFree ensures InRet(b.base, d.addr) {
      var j :| 0 <= j < BUF_COUNT && d == b.rings.retFree[j];
    }
  }

  lemma TakeShape(b: Bus)
    requires Shape(b) && b.rings.reqFree != []
    ensures Shape(TakeReq(b)) && InReq(b.base, b.rings.reqFree[0].addr)
    ensures b.base <= b.rings.reqFree[0].addr && b.rings.reqFree[0].addr + BUF_SZ <= b.base + REGION_SZ
  {
    assert b.rings.reqFree[0] in b.rings.reqFree;
  }

  lemma PopShape(b: Bus)
    requires Shape(b) && b.rings.retUsed != []
    ensures Shape(PopRet(b)) && InRet(b.base, b.rings.retUsed[0].addr)
  {
    assert b.rings.retUsed[0] in b.rings.retUsed;
  }

  lemma SubmitIs(b: Bus, p: nat, client: byte, addr: byte, data: seq<byte>)
    requires Shape(b) && InReq(b.base, p) && |data| <= BUF_SZ - 2 && p - b.origin + 2 + |data| <= |b.mem|
    requires b.origin <= p
    ensures Submit(b, p, client, addr, data) == b.(mem := Store(b.mem, p - b.origin, [client, addr] + data),
      rings := if |b.rings.reqUsed| == CAPACITY
        then b.rings.(reqFree := Enqueue(b.rings.reqFree, Desc(p, BUF_SZ)))
        else b.rings.(reqUsed := b.rings.reqUsed + [Desc(p, |data| + 2)]))
  {
    hide Shape, Store, Enqueue;
  }

  /** Writing header and data byte by byte is one store. */
  lemma Stored(m: seq<byte>, o: nat, client: byte, addr: byte, data: seq<byte>, n: seq<byte>)
    requires o + 2 + |data| <= |m| == |n|
    requires forall k :: 0 <= k < |m| ==>
      n[k] == if k == o then client else if k == o + 1 then addr
              else if o + 2 <= k < o + 2 + |data| then data[k - o - 2] else m[k]
    ensures n == Store(m, o, [client, addr] + data)
  {
  }
}
