/**
 The shared ring buffer: 512 slots, two free-running 32-bit indices, one producer and one consumer.

 `Ring` is the class with the C code's operations, proved against a first-in first-out queue of
 capacity 511.
 */
module RingBuffer {
  const SIZE := 512
  const CAPACITY := 511
  /** Indices are 32-bit and wrap. */
  const WRAP := 0x1_0000_0000

  /** A buffer descriptor. */
  datatype Desc = Desc(addr: nat, len: nat)

  /** The shared memory of a ring. */
  datatype RingMemory = RingMemory(writeIdx: nat, readIdx: nat, slots: seq<Desc>) {
    /** `write_idx - read_idx` in 32-bit arithmetic. */
    function Used(): nat {
      (writeIdx - readIdx) % WRAP
    }

    predicate Empty() {
      Used() % SIZE == 0
    }

    predicate Full() {
      ((writeIdx - readIdx + 1) % WRAP) % SIZE == 0
    }

    predicate Valid() {
      writeIdx < WRAP && readIdx < WRAP && |slots| == SIZE && Used() <= CAPACITY
    }

    /** The queue the ring stands for. */
    function Contents(): (q: seq<Desc>)
      requires Valid()
      ensures |q| == Used()
    {
      seq(Used(), k requires 0 <= k => slots[(readIdx + k) % SIZE])
    }

    function StoreAddr(addr: nat): RingMemory
      requires Valid()
    {
      var k := writeIdx % SIZE;
      this.(slots := slots[k := slots[k].(addr := addr)])
    }

    function StoreLen(len: nat): RingMemory
      requires Valid()
    {
      var k := writeIdx % SIZE;
      this.(slots := slots[k := slots[k].(len := len)])
    }

    function Publish(): RingMemory {
      this.(writeIdx := (writeIdx + 1) % WRAP)
    }

    function Consume(): RingMemory {
      this.(readIdx := (readIdx + 1) % WRAP)
    }

    /** The slot the producer writes next and the one the consumer reads next. */
    function WriteSlot(): nat {
      writeIdx % SIZE
    }

    function ReadSlot(): nat {
      readIdx % SIZE
    }

    // ---------- Lemmas ----------

    /** The two index tests mean what their names say.  They test the difference modulo 512 only, which
        is enough because a ring never holds more than 511. */
    lemma Tests()
      requires Valid()
      ensures Empty() <==> Contents() == []
      ensures Full() <==> |Contents()| == CAPACITY
    {
    }

    /** The next write goes behind the last element, also when an index wraps: 512 divides 2^32. */
    lemma WriteSlotIsBehind()
      requires Valid()
      ensures WriteSlot() == (readIdx + Used()) % SIZE
    {
      assert (writeIdx - readIdx) % WRAP == writeIdx - readIdx
        || (writeIdx - readIdx) % WRAP == writeIdx - readIdx + WRAP;
      assert WRAP == 0x80_0000 * SIZE;
    }

    /** Unless the ring is full, the slot being written holds no element. */
    lemma WriteSlotIsFree(k: nat)
      requires Valid() && k < Used()
      ensures (readIdx + k) % SIZE != WriteSlot()
    {
      WriteSlotIsBehind();
    }

    /** Storing into the write slot leaves the queue alone. */
    lemma StoreKeeps(d: Desc)
      requires Valid()
      ensures this.(slots := slots[WriteSlot() := d]).Valid()
      ensures this.(slots := slots[WriteSlot() := d]).Contents() == Contents()
    {
      var m := this.(slots := slots[WriteSlot() := d]);
      forall k | 0 <= k < Used() ensures m.Contents()[k] == Contents()[k] {
        WriteSlotIsFree(k);
      }
    }

    /** Publishing appends the descriptor in the write slot. */
    lemma PublishAppends()
      requires Valid() && Used() < CAPACITY
      ensures Publish().Valid()
      ensures Publish().Contents() == Contents() + [slots[WriteSlot()]]
    {
      WriteSlotIsBehind();
      PublishGrows();
      var q := Publish().Contents();
      assert forall k | 0 <= k < Used() :: q[k] == Contents()[k];
    }

    lemma PublishGrows()
      requires Valid() && Used() < CAPACITY
      ensures Publish().Used() == Used() + 1
    {
    }

    lemma ConsumeShrinks()
      requires Valid() && Used() > 0
      ensures Consume().Used() == Used() - 1
    {
    }

    lemma ConsumeShifts(k: nat)
      requires readIdx < WRAP
      ensures (Consume().readIdx + k) % SIZE == (readIdx + k + 1) % SIZE
    {
      assert WRAP == 0x80_0000 * SIZE;
    }

    /** Consuming removes the first element. */
    lemma ConsumeRemoves()
      requires Valid() && Used() > 0
      ensures Consume().Valid()
      ensures Contents()[0] == slots[ReadSlot()]
      ensures Consume().Contents() == Contents()[1..]
    {
      ConsumeShrinks();
      forall k | 0 <= k < Used() - 1 ensures Consume().Contents()[k] == Contents()[k + 1] {
        ConsumeShifts(k);
      }
    }
  }

  class Ring {
    var writeIdx: nat
    var readIdx: nat
    const buffers: array<Desc>

    ghost function Memory(): RingMemory
      reads this, buffers
    {
      RingMemory(writeIdx, readIdx, buffers[..])
    }

    ghost predicate Valid()
      reads this, buffers
    {
      Memory().Valid()
    }

    ghost function Contents(): seq<Desc>
      requires Valid()
      reads this, buffers
    {
      Memory().Contents()
    }

    /** Allocates the memory of a ring; its indices are zero, as fresh shared memory is. */
    constructor ()
      ensures Valid() && Contents() == [] && fresh(buffers)
    {
      buffers := new Desc[SIZE](_ => Desc(0, 0));
      writeIdx, readIdx := 0, 0;
    }

    /** Resets the indices. */
    method Init()
      requires buffers.Length == SIZE
      modifies this
      ensures Valid() && Contents() == []
    {
      writeIdx := 0;
      readIdx := 0;
    }

    function IsEmpty(): (r: bool)
      requires Valid()
      reads this, buffers
      ensures r <==> Contents() == []
    {
      Memory().Tests();
      ((writeIdx - readIdx) % WRAP) % SIZE == 0
    }

    /** Appends a descriptor, or reports -1 when the ring is full. */
    method Enqueue(addr: nat, len: nat) returns (r: int)
      requires Valid()
      modifies this`writeIdx, buffers
      ensures Valid()
      ensures r == if |old(Contents())| == CAPACITY then -1 else 0
      ensures Contents() == if r == 0 then old(Contents()) + [Desc(addr, len)] else old(Contents())
    {
      Memory().Tests();
      if ((writeIdx - readIdx + 1) % WRAP) % SIZE == 0 {
        return -1;
      }
      ghost var before := Memory();
      buffers[writeIdx % SIZE] := Desc(addr, buffers[writeIdx % SIZE].len);
      buffers[writeIdx % SIZE] := Desc(buffers[writeIdx % SIZE].addr, len);
      before.StoreKeeps(Desc(addr, len));
      ghost var stored := before.(slots := before.slots[before.WriteSlot() := Desc(addr, len)]);
      assert Memory() == stored;
      stored.PublishAppends();
      writeIdx := (writeIdx + 1) % WRAP;
      assert Memory() == stored.Publish();
      return 0;
    }

    /** Removes the first descriptor, or reports -1 when the ring is empty. */
    method Dequeue() returns (r: int, addr: nat, len: nat)
      requires Valid()
      modifies this`readIdx
      ensures Valid()
      ensures r == if old(Contents()) == [] then -1 else 0
      ensures r == 0 ==> Desc(addr, len) == old(Contents())[0] && Contents() == old(Contents())[1..]
      ensures r != 0 ==> Contents() == old(Contents())
    {
      ghost var before := Memory();
      before.Tests();
      addr, len := 0, 0;
      if ((writeIdx - readIdx) % WRAP) % SIZE == 0 {
        return -1, addr, len;
      }
      addr := buffers[readIdx % SIZE].addr;
      len := buffers[readIdx % SIZE].len;
      before.ConsumeRemoves();
      readIdx := (readIdx + 1) % WRAP;
      assert Memory() == before.Consume();
      return 0, addr, len;
    }
  }
}
