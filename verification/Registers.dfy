/**
 The registers of one I2C interface of the ODROID C4: packing sixteen 4-bit tokens and eight data bytes
 into four 32-bit registers, and the 7-bit address into the address register.
 */
module Registers {
  import opened Tokens

  // Tokens of the list processor.
  const OC4_END: bv32 := 0x0
  const OC4_START: bv32 := 0x1
  const OC4_ADDRW: bv32 := 0x2
  const OC4_ADDRR: bv32 := 0x3
  const OC4_DATA: bv32 := 0x4
  const OC4_DATA_END: bv32 := 0x5
  const OC4_STOP: bv32 := 0x6

  /** Tokens in one list, and data bytes in one list. */
  const MAX_TOKENS := 16
  const MAX_DATA := 8

  /** The token list and write data registers. */
  datatype ListRegs = ListRegs(tk0: bv32, tk1: bv32, wd0: bv32, wd1: bv32)

  const EMPTY := ListRegs(0, 0, 0, 0)

  /** The list processor's token for an operation. */
  function Code(op: Op): bv32 {
    match op
    case End => OC4_END
    case Start => OC4_START
    case AddrW => OC4_ADDRW
    case AddrR => OC4_ADDRR
    case Read => OC4_DATA
    case Write(_) => OC4_DATA
    case DataEnd => OC4_DATA_END
    case Stop => OC4_STOP
  }

  /** A small number as a register value. */
  function Word(k: nat): bv32 {
    if k == 0 then 0 else Word(k - 1) + 1
  }

  /** Field `k` of a token list register. */
  function Nibble(r: bv32, k: bv32): bv32
    requires k < 8
  {
    (r >> (k * 4)) & 0xF
  }

  function OrNibble(r: bv32, k: bv32, t: bv32): bv32
    requires k < 8
  {
    r | ((t & 0xF) << (k * 4))
  }

  /** Byte `k` of a write data register. */
  function ByteAt(r: bv32, k: bv32): byte
    requires k < 4
  {
    ((r >> (k * 8)) & 0xFF) as byte
  }

  function OrByte(r: bv32, k: bv32, b: byte): bv32
    requires k < 4
  {
    r | ((b as bv32) << (k * 8))
  }

  /** ORs token `t` into position `k` of the token lists. */
  function PutToken(l: ListRegs, k: bv32, t: bv32): ListRegs
    requires k < 16
  {
    if k < 8 then l.(tk0 := OrNibble(l.tk0, k, t)) else l.(tk1 := OrNibble(l.tk1, k - 8, t))
  }

  /** ORs byte `b` into position `k` of the write data. */
  function PutData(l: ListRegs, k: bv32, b: byte): ListRegs
    requires k < 8
  {
    if k < 4 then l.(wd0 := OrByte(l.wd0, k, b)) else l.(wd1 := OrByte(l.wd1, k - 4, b))
  }

  /** Field `k` of the token lists, extracted the way the driver's register dump does it. */
  function TokenAt(l: ListRegs, k: bv32): bv32
    requires k < 16
  {
    if k < 8 then Nibble(l.tk0, k) else Nibble(l.tk1, k - 8)
  }

  /** Byte `k` of the write data, extracted the way the driver's register dump does it. */
  function DataAt(l: ListRegs, k: bv32): byte
    requires k < 8
  {
    if k < 4 then ByteAt(l.wd0, k) else ByteAt(l.wd1, k - 4)
  }

  /** The payloads of a list of operations. */
  function Payloads(ops: seq<Op>): (p: seq<byte>)
    ensures |p| <= |ops|
  {
    if ops == [] then [] else
    var last := ops[|ops| - 1];
    Payloads(ops[..|ops| - 1]) + if last.Write? then [last.payload] else []
  }

  predicate Fits(ops: seq<Op>) {
    |ops| <= MAX_TOKENS && |Payloads(ops)| <= MAX_DATA
  }

  /** The registers after loading `ops` one by one. */
  function Pack(ops: seq<Op>): ListRegs
    requires Fits(ops)
  {
    if ops == [] then EMPTY else
    PackOne(Pack(ops[..|ops| - 1]), ops[..|ops| - 1], ops[|ops| - 1])
  }

  /** The registers after loading `op` behind `before`. */
  function PackOne(l: ListRegs, before: seq<Op>, op: Op): ListRegs
    requires |before| < MAX_TOKENS && (op.Write? ==> |Payloads(before)| < MAX_DATA)
  {
    WordOrder(|before|, 0);
    var l1 := PutToken(l, Word(|before|), Code(op));
    if op.Write? then WordOrder(|Payloads(before)|, 0); PutData(l1, Word(|Payloads(before)|), op.payload) else l1
  }

  function TokenNo(l: ListRegs, k: nat): bv32
    requires k < MAX_TOKENS
  {
    WordOrder(k, 0);
    TokenAt(l, Word(k))
  }

  function DataNo(l: ListRegs, k: nat): byte
    requires k < MAX_DATA
  {
    WordOrder(k, 0);
    DataAt(l, Word(k))
  }

  // ---------- The address register ----------

  /** Loads address `a`: clears bits 0 to 6 and ORs the address into bits 1 to 7. */
  function LoadAddress(reg: bv32, a: byte): bv32 {
    (reg & !0x7F) | (((a & 0x7F) as bv32) << 1)
  }

  /** The address the hardware sends. */
  function AddressField(reg: bv32): byte {
    ((reg >> 1) & 0x7F) as byte
  }

  /** Bit 7 of the address register, the top bit of the address field, which loading never clears. */
  predicate TopBit(reg: bv32) {
    reg & 0x80 != 0
  }

  // ---------- Lemmas ----------

  lemma NibbleOr(r: bv32, t: bv32, k: bv32, j: bv32)
    requires k < 8 && j < 8 && t <= 0xF
    ensures Nibble(OrNibble(r, k, t), j) == if j == k then Nibble(r, j) | t else Nibble(r, j)
  {
  }

  lemma PutTokenLow(l: ListRegs, k: bv32, t: bv32, j: bv32)
    requires k < 8 && j < 8 && t <= 0xF
    ensures TokenAt(PutToken(l, k, t), j) == if j == k then TokenAt(l, j) | t else TokenAt(l, j)
  {
    NibbleOr(l.tk0, t, k, j);
  }

  lemma PutTokenHigh(l: ListRegs, k: bv32, t: bv32, j: bv32)
    requires 8 <= k < 16 && 8 <= j < 16 && t <= 0xF
    ensures TokenAt(PutToken(l, k, t), j) == if j == k then TokenAt(l, j) | t else TokenAt(l, j)
  {
    NibbleOr(l.tk1, t, k - 8, j - 8);
  }

  lemma PutTokenAt(l: ListRegs, k: bv32, t: bv32, j: bv32)
    requires k < 16 && j < 16 && t <= 0xF
    ensures TokenAt(PutToken(l, k, t), j) == if j == k then TokenAt(l, j) | t else TokenAt(l, j)
  {
    hide Nibble, OrNibble;
    if k < 8 && j < 8 {
      PutTokenLow(l, k, t, j);
    } else if k >= 8 && j >= 8 {
      PutTokenHigh(l, k, t, j);
    }
  }

  lemma ByteOr0(r: bv32, b: byte)
    ensures ByteAt(OrByte(r, 0, b), 0) == ByteAt(r, 0) | b
  {
  }

  lemma ByteOr1(r: bv32, b: byte)
    ensures ByteAt(OrByte(r, 1, b), 1) == ByteAt(r, 1) | b
  {
  }

  lemma ByteOr2(r: bv32, b: byte)
    ensures ByteAt(OrByte(r, 2, b), 2) == ByteAt(r, 2) | b
  {
  }

  lemma ByteOr3(r: bv32, b: byte)
    ensures ByteAt(OrByte(r, 3, b), 3) == ByteAt(r, 3) | b
  {
  }

  lemma ByteOrSame(r: bv32, b: byte, k: bv32)
    requires k < 4
    ensures ByteAt(OrByte(r, k, b), k) == ByteAt(r, k) | b
  {
    hide ByteAt, OrByte;
    if k == 0 {
      ByteOr0(r, b);
    } else if k == 1 {
      ByteOr1(r, b);
    } else if k == 2 {
      ByteOr2(r, b);
    } else {
      assert k == 3;
      ByteOr3(r, b);
    }
  }

  lemma ByteOrOther(r: bv32, b: byte, k: bv32, j: bv32)
    requires k < 4 && j < 4 && k != j
    ensures ByteAt(OrByte(r, k, b), j) == ByteAt(r, j)
  {
  }

  lemma ByteOr(r: bv32, b: byte, k: bv32, j: bv32)
    requires k < 4 && j < 4
    ensures ByteAt(OrByte(r, k, b), j) == if j == k then ByteAt(r, j) | b else ByteAt(r, j)
  {
    hide ByteAt, OrByte;
    if k == j {
      ByteOrSame(r, b, k);
    } else {
      ByteOrOther(r, b, k, j);
    }
  }

  lemma PutDataSame(l: ListRegs, k: bv32, b: byte, j: bv32)
    requires k < 8 && j < 8 && (k < 4) == (j < 4)
    ensures DataAt(PutData(l, k, b), j) == if j == k then DataAt(l, j) | b else DataAt(l, j)
  {
    hide ByteAt, OrByte;
    if k < 4 {
      ByteOr(l.wd0, b, k, j);
    } else {
      ByteOr(l.wd1, b, k - 4, j - 4);
    }
  }

  lemma PutDataAt(l: ListRegs, k: bv32, b: byte, j: bv32)
    requires k < 8 && j < 8
    ensures DataAt(PutData(l, k, b), j) == if j == k then DataAt(l, j) | b else DataAt(l, j)
  {
    if (k < 4) == (j < 4) {
      PutDataSame(l, k, b, j);
    }
  }

  lemma WordValues()
    ensures Word(0) == 0 && Word(1) == 1 && Word(2) == 2 && Word(3) == 3 && Word(4) == 4 && Word(5) == 5
    ensures Word(6) == 6 && Word(7) == 7 && Word(8) == 8 && Word(9) == 9 && Word(10) == 10
    ensures Word(11) == 11 && Word(12) == 12 && Word(13) == 13 && Word(14) == 14 && Word(15) == 15
    ensures Word(16) == 16
  {
  }

  lemma WordOrder(k: nat, j: nat)
    requires k <= 16 && j <= 16
    ensures Word(k) == Word(j) <==> k == j
    ensures (Word(k) < 8 <==> k < 8) && (Word(k) < 16 <==> k < 16)
  {
    WordValues();
  }

  lemma CodeFits(op: Op)
    ensures Code(op) <= 0xF
  {
  }

  lemma WordHalf(k: nat)
    requires k <= 16
    ensures Word(k) < 4 <==> k < 4
  {
    WordValues();
  }

  /** The first eight tokens go to the first list register, the others to the second. */
  lemma PutTokenHalf(l: ListRegs, k: nat, t: bv32)
    requires k < MAX_TOKENS
    ensures Word(k) < 16 && (Word(k) < 8 <==> k < 8)
    ensures PutToken(l, Word(k), t) ==
      if k < 8 then l.(tk0 := OrNibble(l.tk0, Word(k), t)) else l.(tk1 := OrNibble(l.tk1, Word(k) - 8, t))
  {
    hide OrNibble, Word;
    WordOrder(k, k);
  }

  /** The first four data bytes go to the first write data register, the others to the second. */
  lemma PutDataHalf(l: ListRegs, k: nat, b: byte)
    requires k < MAX_DATA
    ensures Word(k) < 8 && (Word(k) < 4 <==> k < 4)
    ensures PutData(l, Word(k), b) ==
      if k < 4 then l.(wd0 := OrByte(l.wd0, Word(k), b)) else l.(wd1 := OrByte(l.wd1, Word(k) - 4, b))
  {
    hide OrByte, Word;
    WordOrder(k, k);
    WordHalf(k);
  }

  /** Loading one more operation changes its own token field only. */
  lemma PackOneToken(l: ListRegs, before: seq<Op>, op: Op, k: nat)
    requires |before| < MAX_TOKENS && (op.Write? ==> |Payloads(before)| < MAX_DATA) && k < MAX_TOKENS
    ensures TokenNo(PackOne(l, before, op), k) ==
            if k == |before| then TokenNo(l, k) | Code(op) else TokenNo(l, k)
  {
    hide Nibble, OrNibble, OrByte, Word, Code;
    WordOrder(|before|, k);
    WordOrder(k, k);
    CodeFits(op);
    PutTokenAt(l, Word(|before|), Code(op), Word(k));
  }

  /** Loading one more operation changes its own data byte only. */
  lemma PackOneData(l: ListRegs, before: seq<Op>, op: Op, k: nat)
    requires |before| < MAX_TOKENS && (op.Write? ==> |Payloads(before)| < MAX_DATA) && k < MAX_DATA
    ensures DataNo(PackOne(l, before, op), k) ==
            if op.Write? && k == |Payloads(before)| then DataNo(l, k) | op.payload else DataNo(l, k)
  {
    hide ByteAt, OrNibble, OrByte, Word, Code;
    WordOrder(k, k);
    if op.Write? {
      WordOrder(|before|, k);
      WordOrder(|Payloads(before)|, k);
      PutDataAt(PutToken(l, Word(|before|), Code(op)), Word(|Payloads(before)|), op.payload, Word(k));
    }
  }

  /** Where the fields are: eight tokens in each token register, four bytes in each data register, the first in the
      lowest bits. */
  lemma FieldsLaidOut(l: ListRegs)
    ensures TokenNo(l, 0) == l.tk0 & 0xF && TokenNo(l, 1) == (l.tk0 >> 4) & 0xF
    ensures TokenNo(l, 2) == (l.tk0 >> 8) & 0xF && TokenNo(l, 3) == (l.tk0 >> 12) & 0xF
    ensures TokenNo(l, 4) == (l.tk0 >> 16) & 0xF && TokenNo(l, 5) == (l.tk0 >> 20) & 0xF
    ensures TokenNo(l, 6) == (l.tk0 >> 24) & 0xF && TokenNo(l, 7) == (l.tk0 >> 28) & 0xF
    ensures TokenNo(l, 8) == l.tk1 & 0xF && TokenNo(l, 9) == (l.tk1 >> 4) & 0xF
    ensures TokenNo(l, 10) == (l.tk1 >> 8) & 0xF && TokenNo(l, 11) == (l.tk1 >> 12) & 0xF
    ensures TokenNo(l, 12) == (l.tk1 >> 16) & 0xF && TokenNo(l, 13) == (l.tk1 >> 20) & 0xF
    ensures TokenNo(l, 14) == (l.tk1 >> 24) & 0xF && TokenNo(l, 15) == (l.tk1 >> 28) & 0xF
    ensures DataNo(l, 0) == (l.wd0 & 0xFF) as byte && DataNo(l, 1) == ((l.wd0 >> 8) & 0xFF) as byte
    ensures DataNo(l, 2) == ((l.wd0 >> 16) & 0xFF) as byte && DataNo(l, 3) == ((l.wd0 >> 24) & 0xFF) as byte
    ensures DataNo(l, 4) == (l.wd1 & 0xFF) as byte && DataNo(l, 5) == ((l.wd1 >> 8) & 0xFF) as byte
    ensures DataNo(l, 6) == ((l.wd1 >> 16) & 0xFF) as byte && DataNo(l, 7) == ((l.wd1 >> 24) & 0xFF) as byte
  {
    WordsTo15();
    hide Word;
  }

  lemma WordsTo15()
    ensures Word(0) == 0 && Word(1) == 1 && Word(2) == 2 && Word(3) == 3
    ensures Word(4) == 4 && Word(5) == 5 && Word(6) == 6 && Word(7) == 7
    ensures Word(8) == 8 && Word(9) == 9 && Word(10) == 10 && Word(11) == 11
    ensures Word(12) == 12 && Word(13) == 13 && Word(14) == 14 && Word(15) == 15
  {
  }

  /** Packing and unpacking agree on the tokens: field k is the k-th token and every unused field is
      END, so ORing one field in disturbs no other. */
  lemma {:induction false} PackUnpackTokens(ops: seq<Op>, k: nat)
    requires Fits(ops) && k < MAX_TOKENS
    ensures TokenNo(Pack(ops), k) == if k < |ops| then Code(ops[k]) else OC4_END
  {
    if ops == [] {
      EmptyLists(k);
    } else {
      var before := ops[..|ops| - 1];
      PackUnpackTokens(before, k);
      PackOneToken(Pack(before), before, ops[|ops| - 1], k);
    }
  }

  /** The same for the data bytes: byte j is the j-th payload and every unused byte is zero. */
  lemma {:induction false} PackUnpackData(ops: seq<Op>, k: nat)
    requires Fits(ops) && k < MAX_DATA
    ensures DataNo(Pack(ops), k) == if k < |Payloads(ops)| then Payloads(ops)[k] else 0
  {
    if ops == [] {
      EmptyLists(k);
    } else {
      var before := ops[..|ops| - 1];
      PackUnpackData(before, k);
      PackOneData(Pack(before), before, ops[|ops| - 1], k);
    }
  }

  lemma EmptyLists(k: nat)
    requires k < MAX_TOKENS
    ensures TokenNo(EMPTY, k) == OC4_END
    ensures k < MAX_DATA ==> DataNo(EMPTY, k) == 0
  {
    WordOrder(k, k);
  }

  /** What loading an address does to the field: bit 6 is forced to one when the register's bit 7 was set. */
  lemma AddressLoaded(reg: bv32, a: byte)
    requires a <= 0x7F
    ensures AddressField(LoadAddress(reg, a)) == if TopBit(reg) then a | 0x40 else a
  {
  }

  /** Once bit 7 is set no later load clears it. */
  lemma TopBitSticks(reg: bv32, a: byte)
    requires a <= 0x7F
    ensures TopBit(LoadAddress(reg, a)) == (TopBit(reg) || a >= 0x40)
  {
  }

  /** The filter and delay fields above the address keep their value. */
  lemma AddressKeepsFields(reg: bv32, a: byte)
    ensures LoadAddress(reg, a) & 0xFFFFFF00 == reg & 0xFFFFFF00
  {
  }

  /** Loading the address again for a later list of the same request changes nothing. */
  lemma AddressIdempotent(reg: bv32, a: byte)
    ensures LoadAddress(LoadAddress(reg, a), a) == LoadAddress(reg, a)
  {
  }

  lemma AddressCollision(a: byte)
    requires a <= 0x7F
    ensures a | 0x40 == a <==> a >= 0x40
  {
  }

  /** The hardware sends the address it was given, in bits 1 to 7, exactly when bit 7 of the register was clear or
      the address has its own top bit set. */
  lemma AddressSentExactly(reg: bv32, a: byte)
    requires a <= 0x7F
    ensures AddressField(LoadAddress(reg, a)) == a <==> !TopBit(reg) || a >= 0x40
    ensures (LoadAddress(reg, a) & 0xFE) >> 1 == a as bv32 <==> reg & 0x80 == 0 || a >= 0x40
  {
    AddressLoaded(reg, a);
    AddressCollision(a);
  }

  /** A request to 0x68 followed by one to 0x24: the second goes out to 0x64. */
  lemma AddressLeaks()
    ensures AddressField(LoadAddress(LoadAddress(0, 0x68), 0x24)) == 0x64
  {
  }
}
