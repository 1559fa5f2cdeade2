/**
 The shared buffer region of one bus: 511 request buffers followed by 511 return buffers of 512 bytes,
 named by their addresses.  `Bag` counts the addresses in a queue of descriptors.
 */
module Memory {
  import opened Tokens
  import opened RingBuffer

  const BUF_SZ := 512
  const BUF_COUNT := 511

  /** Bytes of one kind of buffer, and of one bus. */
  const POOL_SZ := BUF_COUNT * BUF_SZ
  const REGION_SZ := 2 * POOL_SZ

  // Layout of a return buffer.
  const RET_BUF_ERR := 0
  const RET_BUF_ERR_TK := 1
  const RET_BUF_CLIENT := 2
  const RET_BUF_ADDR := 3

  predicate InPool(first: nat, p: nat) {
    first <= p < first + POOL_SZ && (p - first) % BUF_SZ == 0
  }

  /** The request and return buffers of a bus whose region starts at `base`. */
  predicate InReq(base: nat, p: nat) {
    InPool(base, p)
  }

  predicate InRet(base: nat, p: nat) {
    InPool(base + POOL_SZ, p)
  }

  /** The `k` first buffers of a pool, as initialisation queues them. */
  function Pool(first: nat, k: nat): (q: seq<Desc>)
    requires k <= BUF_COUNT
    ensures |q| == k
    ensures forall j :: 0 <= j < k ==> q[j] == Desc(first + j * BUF_SZ, BUF_SZ)
  {
    seq(k, j requires 0 <= j => Desc(first + j * BUF_SZ, BUF_SZ))
  }

  /** How often each address occurs in a queue. */
  function Bag(q: seq<Desc>): (m: multiset<nat>)
    ensures |m| == |q|
  {
    if q == [] then multiset{} else Bag(q[..|q| - 1]) + multiset{q[|q| - 1].addr}
  }

  /** Overwrites the bytes from offset `o` on. */
  function Store(mem: seq<byte>, o: nat, data: seq<byte>): (r: seq<byte>)
    requires o + |data| <= |mem|
    ensures |r| == |mem|
  {
    mem[..o] + data + mem[o + |data|..]
  }

  /** The buffer at offset `o`. */
  function Buffer(mem: seq<byte>, o: nat): (r: seq<byte>)
    requires o + BUF_SZ <= |mem|
    ensures |r| == BUF_SZ
  {
    mem[o..o + BUF_SZ]
  }

  // ---------- Lemmas ----------

  lemma PoolSnoc(first: nat, k: nat)
    requires k < BUF_COUNT
    ensures Pool(first, k + 1) == Pool(first, k) + [Desc(first + k * BUF_SZ, BUF_SZ)]
  {
  }

  lemma BagSnoc(q: seq<Desc>, d: Desc)
    ensures Bag(q + [d]) == Bag(q) + multiset{d.addr}
  {
    assert (q + [d])[..|q|] == q;
  }

  lemma {:induction false} BagTail(q: seq<Desc>)
    requires q != []
    ensures Bag(q) == Bag(q[1..]) + multiset{q[0].addr}
  {
    var n := |q| - 1;
    if n > 0 {
      BagTail(q[..n]);
      var t := q[1..];
      assert q[..n][1..] == t[..n - 1] && t[n - 1] == q[n] && q[..n][0] == q[0];
      assert Bag(t) == Bag(t[..n - 1]) + multiset{q[n].addr};
    }
  }

  lemma ConcatSnoc(x: seq<Desc>, y: seq<Desc>)
    requires y != []
    ensures x + y == (x + y[..|y| - 1]) + [y[|y| - 1]]
  {
  }

  lemma ConcatNothing(x: seq<Desc>)
    ensures x + [] == x && Bag(x) == Bag(x) + Bag([])
  {
  }

  lemma {:induction false} BagConcat(x: seq<Desc>, y: seq<Desc>)
    ensures Bag(x + y) == Bag(x) + Bag(y)
    decreases |y|
  {
    hide Bag;
    if y == [] {
      ConcatNothing(x);
    } else {
      var t, d := y[..|y| - 1], y[|y| - 1];
      BagConcat(x, t);
      ConcatSnoc(x, y);
      assert y == t + [d];
      BagSnoc(x + t, d);
      BagSnoc(t, d);
      assert (Bag(x) + Bag(t)) + multiset{d.addr} == Bag(x) + (Bag(t) + multiset{d.addr});
    }
  }

  lemma {:induction false} BagIn(q: seq<Desc>, p: nat)
    ensures p in Bag(q) <==> exists d :: d in q && d.addr == p
  {
    if q != [] {
      var n := |q| - 1;
      BagIn(q[..n], p);
      assert q == q[..n] + [q[n]];
      if p in Bag(q) {
        if p in Bag(q[..n]) {
          var d :| d in q[..n] && d.addr == p;
          assert d in q;
        } else {
          assert q[n] in q && q[n].addr == p;
        }
      }
    }
  }

  /** Each buffer of a pool occurs once in the initial queue, and nothing else occurs. */
  lemma {:induction false} PoolBag(first: nat, k: nat, p: nat)
    requires k <= BUF_COUNT
    ensures Bag(Pool(first, k))[p] ==
      if first <= p < first + k * BUF_SZ && (p - first) % BUF_SZ == 0 then 1 else 0
  {
    if k > 0 {
      assert Pool(first, k)[..k - 1] == Pool(first, k - 1);
      PoolBag(first, k - 1, p);
    }
  }

  lemma PoolOnce(first: nat, p: nat)
    ensures Bag(Pool(first, BUF_COUNT))[p] == if InPool(first, p) then 1 else 0
  {
    hide Bag, Pool;
    PoolBag(first, BUF_COUNT, p);
  }

  /** Writing into one buffer leaves every other buffer of the region alone. */
  lemma StoreElsewhere(mem: seq<byte>, o: nat, data: seq<byte>, p: nat)
    requires o + |data| <= |mem| && p + BUF_SZ <= |mem|
    requires o + |data| <= p || p + BUF_SZ <= o
    ensures Buffer(Store(mem, o, data), p) == Buffer(mem, p)
  {
  }

  /** Two different buffers of a bus do not overlap. */
  lemma BuffersApart(base: nat, p: nat, q: nat)
    requires InReq(base, p) || InRet(base, p)
    requires InReq(base, q) || InRet(base, q)
    requires p != q
    ensures p + BUF_SZ <= q || q + BUF_SZ <= p
    ensures base <= p && p + BUF_SZ <= base + REGION_SZ
  {
  }
}
