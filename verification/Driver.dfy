/**
 The driver as objects: the registers of an interface, the driver's record for a bus, and the handlers for
 notifications and interrupts.  Every handler is proved to change the bus exactly as the functions of
 module BusModel say.
 */
module Driver {
  import opened Tokens
  import opened Registers
  import opened Loader
  import opened RingBuffer
  import opened Memory
  import opened BusModel
  import opened Transport

  /** The registers of one I2C interface.  `start` is bit 0 of the control register. */
  class Interface {
    var addr: bv32
    var tkList0: bv32
    var tkList1: bv32
    var wdata0: bv32
    var wdata1: bv32
    var start: bool

    constructor (addr: bv32)
      ensures this.addr == addr && !start
    {
      this.addr := addr;
      tkList0, tkList1, wdata0, wdata1 := 0, 0, 0, 0;
      start := false;
    }

    ghost function Lists(): ListRegs
      reads this
    {
      ListRegs(tkList0, tkList1, wdata0, wdata1)
    }

    /** `i2cFlush` and the clearing that follows it. */
    method Clear()
      modifies this`tkList0, this`tkList1, this`wdata0, this`wdata1
      ensures Lists() == EMPTY
    {
      tkList0 := 0x0;
      tkList1 := 0x0;
      wdata0 := 0x0;
      wdata1 := 0x0;
    }

    method SetAddress(target: byte)
      modifies this`addr
      ensures addr == LoadAddress(old(addr), target)
    {
      addr := addr & !0x7F;
      addr := addr | (((target & 0x7F) as bv32) << 1);
    }

    /** ORs a token into the lists. */
    method PutTok(tkOffset: nat, tok: bv32)
      requires tkOffset < MAX_TOKENS && tok <= 0xF
      modifies this`tkList0, this`tkList1
      ensures Word(tkOffset) < 16 && Lists() == PutToken(old(Lists()), Word(tkOffset), tok)
    {
      PutTokenHalf(Lists(), tkOffset, tok);
      hide OrNibble, Word, PutToken;
      if tkOffset < 8 {
        tkList0 := OrNibble(tkList0, Word(tkOffset), tok);
      } else {
        tkList1 := OrNibble(tkList1, Word(tkOffset) - 8, tok);
      }
    }

    /** ORs a data byte into the write data. */
    method PutDat(wdatOffset: nat, data: byte)
      requires wdatOffset < MAX_DATA
      modifies this`wdata0, this`wdata1
      ensures Word(wdatOffset) < 8 && Lists() == PutData(old(Lists()), Word(wdatOffset), data)
    {
      PutDataHalf(Lists(), wdatOffset, data);
      hide OrByte, Word, PutData;
      if wdatOffset < 4 {
        wdata0 := OrByte(wdata0, Word(wdatOffset), data);
      } else {
        wdata1 := OrByte(wdata1, Word(wdatOffset) - 4, data);
      }
    }

    /** ORs one operation into the registers: its token, and its data byte when it is a write. */
    method PutOp(ghost acc: seq<Op>, ghost op: Op, tkOffset: nat, wdatOffset: nat, tok: bv32, write: bool, data: byte)
      requires |acc| < MAX_TOKENS && |Payloads(acc)| < MAX_DATA && Lists() == Pack(acc)
      requires tkOffset == |acc| && wdatOffset == |Payloads(acc)|
      requires tok == Code(op) <= 0xF && write == op.Write? && (write ==> data == op.payload)
      modifies this`tkList0, this`tkList1, this`wdata0, this`wdata1
      ensures Fits(acc + [op]) && Lists() == Pack(acc + [op])
    {
      hide Pack, PutToken, PutData, Payloads, Code, Word;
      PackSnoc(acc, op);
      PutTok(tkOffset, tok);
      if write {
        PutDat(wdatOffset, data);
      }
    }
  }

  /** `i2cGetError`: minus the token field when the error bit is set, else the read count, which is kept
      in eight bits although the field is bits 8 to 11. */
  function GetError(ctl: bv32): int {
    if ctl & 0x8 != 0 then -(ErrorToken(ctl) as int) else (((ctl & 0xF00) & 0xFF) as byte) as int
  }

  lemma ReadCountLost(ctl: bv32)
    ensures ((ctl & 0xF00) & 0xFF) as byte == 0
  {
  }

  lemma ErrorTokenNibble(ctl: bv32)
    ensures ErrorToken(ctl) & 0xF == 0
  {
  }

  /** What the driver learns from the control register: minus bits 4 to 7 when bit 3 is set and 0 otherwise, so
      never a read count, and no read data is ever copied; an error exactly when bit 3 is set and bits 4 to 7
      are not all clear; and never minus the ADDRR token, so NOREAD is never reported. */
  lemma GetErrorExactly(ctl: bv32)
    ensures GetError(ctl) == if ctl & 0x8 != 0 then -((ctl & 0xF0) as byte as int) else 0
    ensures Failed(ctl) <==> ctl & 0x8 != 0 && ctl & 0xF0 != 0
    ensures GetError(ctl) < 0 <==> Failed(ctl)
    ensures GetError(ctl) <= 0
    ensures GetError(ctl) != -3
  {
    ReadCountLost(ctl);
    ErrorTokenNibble(ctl);
  }

  /** The driver's record for one bus (`i2c_ifState[bus]`), with the bus's interface and transport. */
  class BusDriver {
    var currentReq: nat
    var currentRet: nat
    var currentReqLen: int
    var remaining: int
    var notified: bool
    var ddr: bool
    const iface: Interface
    const ch: Channel

    ghost function State(): DriverState
      reads this
    {
      DriverState(currentReq, currentRet, currentReqLen, remaining, notified, ddr)
    }

    /** The bus as a value. */
    ghost function View(): Bus
      requires ch.RingsValid()
      reads this, iface, ch.Repr()
    {
      ch.View().(st := State(), addr := iface.addr, lists := iface.Lists(), started := iface.start)
    }

    ghost predicate Separate() {
      this !in ch.Repr() && iface !in ch.Repr()
    }

    ghost predicate Valid()
      reads this, iface, ch.Repr()
    {
      Separate() && ch.RingsValid() && Shape(View())
    }

    lemma ChannelBase()
      requires ch.RingsValid()
      ensures ch.View().origin == ch.origin && ch.View().base == ch.base && ch.View().mem == ch.mem[..]
    {
    }

    lemma InMemory()
      requires ch.RingsValid()
      ensures ch.View().st == IDLE && !ch.View().started
      ensures View().origin == ch.origin && View().base == ch.base && View().mem == ch.mem[..] && View().st == State()
      ensures View() == ch.View().(st := State(), addr := iface.addr, lists := iface.Lists(), started := iface.start)
    {
    }

    /** `init`: the driver starts idle.  The direction is the zero of static storage. */
    constructor (ch: Channel, iface: Interface)
      requires ch.Valid() && iface !in ch.Repr() && !iface.start
      ensures Valid() && this.ch == ch && this.iface == iface
      ensures State() == DriverState(0, 0, 0, 0, false, false) == IDLE
    {
      this.ch := ch;
      this.iface := iface;
      currentReq, currentRet, currentReqLen, remaining := 0, 0, 0, 0;
      notified, ddr := false, false;
      new;
      IdleShape(ch.View(), View());
    }

    /** Translates a token and keeps track of the direction; `next` is the byte behind it. */
    method Translate(tok: byte, ghost next: byte) returns (known: bool, odroidTok: bv32)
      modifies this`ddr
      ensures known == Decode(tok, next, old(ddr)).Some?
      ensures known ==> var op := Decode(tok, next, old(ddr)).value;
        odroidTok == Code(op) && ddr == op.Reading(old(ddr)) && (odroidTok == OC4_DATA && !ddr <==> op.Write?)
      ensures !known ==> ddr == old(ddr)
    {
      known := true;
      if tok == TK_END {
        odroidTok := OC4_END;
      } else if tok == TK_START {
        odroidTok := OC4_START;
      } else if tok == TK_ADDRW {
        odroidTok := OC4_ADDRW;
        ddr := false;
      } else if tok == TK_ADDRR {
        odroidTok := OC4_ADDRR;
        ddr := true;
      } else if tok == TK_DAT {
        odroidTok := OC4_DATA;
      } else if tok == TK_DATA_END {
        odroidTok := OC4_DATA_END;
      } else if tok == TK_STOP {
        odroidTok := OC4_STOP;
      } else {
        known := false;
        odroidTok := 0x0;
      }
    }

    /** Loads the token at offset `i` of the request as token number `tkOffset`. */
    method LoadToken(ghost c: Cells, ghost acc: seq<Op>, o: nat, i: nat, tkOffset: nat, wdatOffset: nat)
      returns (known: bool, i': nat, wdatOffset': nat, ghost op: Op)
      requires i < Len(c) && o + 3 + i < ch.mem.Length && c[i] == ch.mem[o + 2 + i] && c[i + 1] == ch.mem[o + 3 + i]
      requires |acc| < MAX_TOKENS && |Payloads(acc)| < MAX_DATA
      requires tkOffset == |acc| && wdatOffset == |Payloads(acc)| && iface.Lists() == Pack(acc)
      modifies this`ddr, iface`tkList0, iface`tkList1, iface`wdata0, iface`wdata1
      ensures known == Decode(c[i], c[i + 1], old(ddr)).Some?
      ensures !known ==> ddr == old(ddr) && iface.Lists() == old(iface.Lists())
      ensures known ==>
        && op == Decode(c[i], c[i + 1], old(ddr)).value
        && Fits(acc + [op]) && iface.Lists() == Pack(acc + [op]) && wdatOffset' == |Payloads(acc + [op])|
        && i' == i + op.Size() && ddr == op.Reading(old(ddr))
    {
      hide Pack, Decode, Code, Op.Reading, Payloads;
      i', wdatOffset' := i, wdatOffset;
      op := End;
      var tok := ch.mem[o + 2 + i];
      var odroidTok: bv32;
      ghost var d := ddr;
      known, odroidTok := Translate(tok, ch.mem[o + 2 + i + 1]);
      if !known {
        return;
      }
      op := Decode(tok, ch.mem[o + 2 + i + 1], d).value;
      CodeFits(op);
      DecodePayload(tok, ch.mem[o + 2 + i + 1], d);
      PayloadsSnoc(acc, op);
      iface.PutOp(acc, op, tkOffset, wdatOffset, odroidTok, odroidTok == OC4_DATA && !ddr, ch.mem[o + 2 + i + 1]);
      if odroidTok == OC4_DATA && !ddr {
        wdatOffset' := wdatOffset + 1;
        i' := i + 1;
      }
      i' := i' + 1;
    }

    /** The loop of `i2cLoadTokens`: fills the cleared registers from offset `start` of the request. */
    method LoadList(ghost c: Cells, o: nat, start: nat) returns (ok: bool, i: nat, ghost ops: seq<Op>)
      requires Len(c) == currentReqLen && o + 2 + |c| <= ch.mem.Length && c == ch.mem[o + 2..o + 2 + |c|]
      requires iface.Lists() == EMPTY
      modifies this`ddr, iface`tkList0, iface`tkList1, iface`wdata0, iface`wdata1
      ensures Load(c, start, old(ddr)) == Chunk(ok, ops, i, ddr) && Fits(ops) && iface.Lists() == Pack(ops)
    {
      hide Pack, LoadFrom, Payloads, Decode, Op.Reading;
      ghost var whole := Load(c, start, ddr);
      var tkOffset, wdatOffset := 0, 0;
      ok, i, ops := true, start, [];
      PackNothing();
      while tkOffset < 16 && wdatOffset < 8
        invariant Fits(ops) && tkOffset == |ops| && wdatOffset == |Payloads(ops)|
        invariant iface.Lists() == Pack(ops) && LoadFrom(c, i, ddr, ops) == whole
        decreases 16 - tkOffset
      {
        LoadStep(c, i, ddr, ops);
        if i >= currentReqLen {
          CodeFits(End);
          PayloadsSnoc(ops, End);
          iface.PutOp(ops, End, tkOffset, wdatOffset, OC4_END, false, 0);
          ops := ops + [End];
          tkOffset := tkOffset + 1;
          i := i + 1;
          continue;
        }
        ghost var op;
        var known, i', wdatOffset';
        known, i', wdatOffset', op := LoadToken(c, ops, o, i, tkOffset, wdatOffset);
        if !known {
          return false, i, ops;
        }
        ops := ops + [op];
        tkOffset := tkOffset + 1;
        i, wdatOffset := i', wdatOffset';
      }
      LoadStep(c, i, ddr, ops);
    }

    /** Sets up the interface for the next list. */
    method FillInterface(ghost c: Cells, o: nat, target: byte, start: nat)
      returns (ok: bool, i: nat, ghost ops: seq<Op>)
      requires Len(c) == currentReqLen && o + 2 + |c| <= ch.mem.Length && c == ch.mem[o + 2..o + 2 + |c|]
      requires Separate() && ch.RingsValid()
      modifies this`ddr, iface`addr, iface`tkList0, iface`tkList1, iface`wdata0, iface`wdata1
      ensures Load(c, start, old(ddr)) == Chunk(ok, ops, i, ddr) && Fits(ops) && ch.RingsValid()
      ensures View() == old(View()).(addr := LoadAddress(old(iface.addr), target), lists := Pack(ops),
        st := old(State()).(reading := ddr))
    {
      hide Pack, Load, LoadAddress, Channel.View, Channel.RingsValid;
      iface.Clear();
      iface.SetAddress(target);
      ok, i, ops := LoadList(c, o, start);
    }

    /** Remembers where the next list begins and starts the list processor. */
    method Start(i: nat)
      requires Separate() && ch.RingsValid()
      modifies this`remaining, iface`start
      ensures ch.RingsValid()
      ensures View() == old(View()).(started := true,
        st := old(State()).(remaining := if currentReqLen > i then currentReqLen - i else 0))
    {
      hide Channel.View, Channel.RingsValid;
      remaining := if currentReqLen - i > 0 then currentReqLen - i else 0;
      iface.start := true;
    }

    /** Fills the interface for the list at the current offset and, unless a token is bad, starts it. */
    method StartList(ghost b: Bus, o: nat, target: byte) returns (ok: bool)
      requires Valid() && b == View() && Busy(b) && CurrentTarget(b) == target <= 0x7F
      requires var c := CurrentCells(b);
        Len(c) == b.st.reqLen && o + 2 + |c| <= |b.mem| && c == b.mem[o + 2..o + 2 + |c|]
      modifies this`ddr, this`remaining, iface
      ensures Valid() && View() == LoadTokens(b).bus && ok == LoadTokens(b).ok
    {
      hide LoadTokens, Load, Pack, LoadAddress, Shape, Channel.View, Channel.RingsValid, CurrentCells, CurrentTarget,
        Busy;
      InMemory();
      OffsetNat(b);
      ghost var ops;
      var i;
      ok, i, ops := FillInterface(CurrentCells(b), o, target, currentReqLen - remaining);
      if ok {
        Start(i);
      }
      InMemory();
      LoadedView(b, View(), ok, ops, i);
    }

    /** `i2cLoadTokens`: loads the next list of the current request and starts the hardware on it, or
        returns -1 when the address or a token is bad. */
    method I2cLoadTokens() returns (r: int)
      requires Valid() && Busy(View())
      modifies this`ddr, this`remaining, iface
      ensures Valid()
      ensures View() == LoadTokens(old(View())).bus
      ensures r == if LoadTokens(old(View())).ok then 0 else -1
    {
      hide LoadTokens, Shape, Channel.View, Channel.RingsValid, CurrentCells, CurrentTarget, Busy;
      ghost var b := View();
      CellsPlaced(b);
      InMemory();
      var o := currentReq - ch.origin;
      var addr := ch.mem[o + 1];
      if addr > 0x7F {
        BadTarget(b);
        return -1;
      }
      var ok := StartList(b, o, addr);
      return if ok then 0 else -1;
    }

    /** Copies client and target of a request into the header of its return buffer. */
    method CopyHeader(req: nat, ret: nat)
      requires ch.RingsValid() && InReq(ch.base, req) && InRet(ch.base, ret)
      modifies ch.mem
      ensures ch.RingsValid()
      ensures ch.View() == old(ch.View()).(mem := Store(old(ch.View()).mem, ret - ch.origin + RET_BUF_CLIENT,
        [old(ch.View()).mem[req - ch.origin], old(ch.View()).mem[req - ch.origin + 1]]))
    {
      ghost var before := ch.mem[..];
      ch.mem[ret - ch.origin + RET_BUF_CLIENT] := ch.mem[req - ch.origin];
      ch.mem[ret - ch.origin + RET_BUF_ADDR] := ch.mem[req - ch.origin + 1];
      assert ch.mem[..] == Store(before, ret - ch.origin + RET_BUF_CLIENT,
        [before[req - ch.origin], before[req - ch.origin + 1]]);
    }

    /** Takes the next request and a return buffer and copies the header; `ret` is 0 when no return buffer
        is free, and copying would write through it: the request has been popped then. */
    method TakeBuffers() returns (req: nat, sz: nat, ret: nat)
      requires ch.RingsValid() && Shape(ch.View()) && ch.View().rings.reqUsed != []
      modifies ch.Repr()
      ensures ch.RingsValid() && Desc(req, sz) == old(ch.View()).rings.reqUsed[0]
      ensures ret == 0 <==> old(ch.View()).rings.retFree == []
      ensures if ret == 0 then ch.View() == PopReq(old(ch.View()))
        else ret == old(ch.View()).rings.retFree[0].addr && Taken(old(ch.View()), ch.View())
    {
      hide Shape, Channel.View, Channel.RingsValid, InReq, InRet;
      ghost var b := ch.View();
      ChannelBase();
      if b.rings.retFree != [] {
        AcceptedPlaces(b);
      }
      req, sz := ch.PopReqBuf();
      ret := ch.GetRetBuf();
      if ret == 0 {
        return;
      }
      CopyHeader(req, ret);
    }

    /** The current request is the one in `req`, to be answered in `ret`. */
    method Record(req: nat, sz: nat, ret: nat)
      requires Separate() && ch.RingsValid() && sz >= 2
      modifies this
      ensures ch.RingsValid()
      ensures View() == old(View()).(st := DriverState(req, ret, sz - 2, sz - 2, false, old(ddr)))
    {
      hide Channel.View, Channel.RingsValid;
      currentReq := req;
      currentReqLen := sz - 2;
      remaining := sz - 2;
      notified := false;
      currentRet := ret;
    }

    /** The bookkeeping of `checkBuf`.  Reports whether no return buffer was free. */
    method TakeRequest() returns (nullRet: bool)
      requires Valid() && !Busy(View()) && View().rings.reqUsed != []
      modifies this, ch.Repr()
      ensures Valid()
      ensures nullRet <==> old(View()).rings.retFree == []
      ensures if nullRet then View() == PopReq(old(View())) else Busy(View()) && View() == Accept(old(View()))
    {
      hide Shape, Channel.View, Channel.RingsValid, Accept, Taken;
      ghost var b, t := View(), ch.View();
      InMemory();
      IdleView(b, t);
      PopReqShape(b);
      var req, sz, ret := TakeBuffers();
      InMemory();
      if ret == 0 {
        return true;
      }
      AcceptShape(b);
      AcceptTakes(b, t, ch.View());
      Record(req, sz, ret);
      return false;
    }

    /** `checkBuf`.  Reports whether it would write through a NULL return buffer. */
    method CheckBuf() returns (nullRet: bool)
      requires Valid()
      modifies this, iface, ch.Repr()
      ensures Valid()
      ensures nullRet <==> BusModel.CheckBuf(old(View())).Faulted?
      ensures View() == BusModel.CheckBuf(old(View())).bus
    {
      hide Shape, Channel.View, Channel.RingsValid, Accept, LoadTokens;
      ghost var b := View();
      InMemory();
      CheckBufShape(b);
      var empty := ch.ReqBufEmpty();
      if !empty {
        if currentReq != 0 {
          notified := true;
          return false;
        }
        nullRet := TakeRequest();
        if nullRet {
          return true;
        }
        var r := I2cLoadTokens();
      } else {
        notified := false;
      }
      return false;
    }

    /** Writes error code and token of the finished list into the return buffer. */
    method WriteOutcome(err: int, timeout: bool, ghost ctl: bv32)
      requires ch.RingsValid() && InRet(ch.base, currentRet) && err == GetError(ctl)
      modifies ch.mem
      ensures ch.RingsValid()
      ensures ch.View() == old(ch.View()).(mem := Store(old(ch.View()).mem, currentRet - ch.origin,
        [ReportedCode(ctl, timeout), ReportedToken(ctl)]))
    {
      ghost var before := ch.mem[..];
      var code, token := I2C_ERR_OK, 0x0;
      if err < 0 {
        if timeout {
          code := I2C_ERR_TIMEOUT;
        } else if err == -(TK_ADDRR as int) {
          code := I2C_ERR_NOREAD;
        } else {
          code := I2C_ERR_NACK;
        }
        token := (-err) as byte;
      }
      GetErrorExactly(ctl);
      ch.mem[currentRet - ch.origin + RET_BUF_ERR] := code;
      ch.mem[currentRet - ch.origin + RET_BUF_ERR_TK] := token;
      assert ch.mem[..] == Store(before, currentRet - ch.origin, [ReportedCode(ctl, timeout), ReportedToken(ctl)]);
    }

    /** Halts the list processor and records the outcome of its list. */
    method Halt(ctl: bv32, timeout: bool) returns (err: int)
      requires Valid() && Busy(View())
      modifies iface`start, ch.mem
      ensures Valid() && err == GetError(ctl)
      ensures View() == Report(old(View()), ctl, timeout)
    {
      hide Shape, Channel.View, Channel.RingsValid, ReportedCode, ReportedToken, GetError;
      ghost var b := View();
      InMemory();
      BusyPlaces(b);
      ReportShape(b, ctl, timeout);
      iface.start := false;
      err := GetError(ctl);
      WriteOutcome(err, timeout, ctl);
    }

    /** Returns the current request to the server. */
    method Finish()
      requires Valid() && Busy(View())
      modifies this, iface`start, ch.Repr()
      ensures Valid() && View() == Complete(old(View()))
    {
      hide Shape, Channel.View, Channel.RingsValid, BusModel.Enqueue;
      ghost var b := View();
      InMemory();
      BusyPlaces(b);
      CompleteShape(b);
      var pushed := ch.PushRetBuf(currentRet, currentReqLen);
      var released := ch.ReleaseReqBuf(currentReq);
      InMemory();
      currentRet := 0;
      currentReq := 0;
      currentReqLen := 0;
      remaining := 0;
      iface.start := false;
    }

    /** `i2cirq`, the control register reading `ctl`.  Reports whether it would load tokens through a NULL
        request pointer. */
    method I2cIrq(ctl: bv32, timeout: bool) returns (nullReq: bool)
      requires Valid() && iface.start
      modifies this, iface, ch.Repr()
      ensures Valid()
      ensures nullReq <==> Irq(old(View()), ctl, timeout).Faulted?
      ensures View() == Irq(old(View()), ctl, timeout).bus
    {
      hide Shape, Channel.View, Channel.RingsValid, Complete, Report, LoadTokens, GetError, Failed;
      ghost var b := View();
      StartedBusy(b);
      IrqShape(b, ctl, timeout);
      ReportState(b, ctl, timeout);
      GetErrorExactly(ctl);
      var err := Halt(ctl, timeout);
      if err < 0 || remaining == 0 {
        Finish();
      }
      if notified || remaining != 0 {
        if currentReq == 0 {
          return true;
        }
        var r := I2cLoadTokens();
      }
      return false;
    }
  }

  lemma BusyPlaces(b: Bus)
    requires Shape(b) && Busy(b)
    ensures InRet(b.base, b.st.currentRet) && InReq(b.base, b.st.currentReq)
    ensures b.st.currentRet > 0 && 0 <= b.st.reqLen <= BUF_SZ
  {
  }

  lemma ReportState(b: Bus, ctl: bv32, timeout: bool)
    requires Shape(b) && Busy(b)
    ensures Report(b, ctl, timeout).st == b.st && Shape(Report(b, ctl, timeout))
    ensures Complete(Report(b, ctl, timeout)).st == DriverState(0, 0, 0, 0, b.st.notified, b.st.reading)
  {
    ReportShape(b, ctl, timeout);
  }

  /** What taking a request and a return buffer does to the channel. */
  predicate Taken(b: Bus, c: Bus)
    requires Shape(b) && b.rings.retFree != [] && b.rings.reqUsed != []
  {
    AcceptedPlaces(b);
    var o, r := b.rings.reqUsed[0].addr - b.origin, b.rings.retFree[0].addr - b.origin;
    c == b.(rings := b.rings.(reqUsed := b.rings.reqUsed[1..], retFree := b.rings.retFree[1..]),
            mem := Store(b.mem, r + RET_BUF_CLIENT, [b.mem[o], b.mem[o + 1]]))
  }

  lemma IdleView(b: Bus, t: Bus)
    requires Shape(b) && b == t.(st := b.st, addr := b.addr, lists := b.lists, started := b.started)
    requires t.st == IDLE && !t.started
    ensures Shape(t)
  {
  }

  lemma AcceptTakes(b: Bus, t: Bus, c: Bus)
    requires Shape(b) && Shape(t) && b == t.(st := b.st, addr := b.addr, lists := b.lists, started := b.started)
    requires b.rings.retFree != [] && b.rings.reqUsed != [] && Taken(t, c)
    ensures b.rings.reqUsed[0].len >= 2
    ensures Accept(b) == c.(addr := b.addr, lists := b.lists, started := b.started,
      st := DriverState(b.rings.reqUsed[0].addr, b.rings.retFree[0].addr,
        b.rings.reqUsed[0].len - 2, b.rings.reqUsed[0].len - 2, false, b.st.reading))
  {
    AcceptedPlaces(b);
  }

  lemma PackNothing()
    ensures Fits([]) && Pack([]) == EMPTY
  {
  }

  lemma IdleShape(b: Bus, c: Bus)
    requires Shape(b) && b.st == IDLE && c == b.(addr := c.addr, lists := c.lists)
    ensures Shape(c)
  {
  }

  /** Packing one more operation. */
  lemma PackSnoc(acc: seq<Op>, op: Op)
    requires |acc| < MAX_TOKENS && |Payloads(acc)| < MAX_DATA
    ensures Fits(acc + [op]) && Pack(acc + [op]) == PackOne(Pack(acc), acc, op)
    ensures |Payloads(acc + [op])| == |Payloads(acc)| + if op.Write? then 1 else 0
  {
    hide PackOne;
    PayloadsSnoc(acc, op);
    assert (acc + [op])[..|acc|] == acc;
  }

  /** The current chain as a stretch of memory. */
  lemma CellsPlaced(b: Bus)
    requires Shape(b) && Busy(b)
    ensures var o := b.st.currentReq - b.origin; var c := CurrentCells(b);
      && 0 <= o && o + 2 + |c| <= |b.mem| && Len(c) == b.st.reqLen && 0 <= b.st.remaining <= b.st.reqLen
      && c == b.mem[o + 2..o + 2 + |c|] && CurrentTarget(b) == b.mem[o + 1]
  {
  }

  lemma OffsetNat(b: Bus)
    requires Shape(b)
    ensures 0 <= b.st.remaining <= b.st.reqLen
  {
  }

  lemma BadTarget(b: Bus)
    requires Shape(b) && Busy(b) && CurrentTarget(b) > 0x7F
    ensures LoadTokens(b) == Loaded(b, false)
  {
  }

  /** The bus after a load with a good address. */
  lemma LoadedView(b: Bus, v: Bus, ok: bool, ops: seq<Op>, i: nat)
    requires Shape(b) && Busy(b) && CurrentTarget(b) <= 0x7F && Fits(ops)
    requires Load(CurrentCells(b), b.st.reqLen - b.st.remaining, b.st.reading) == Chunk(ok, ops, i, v.st.reading)
    requires v == b.(addr := LoadAddress(b.addr, CurrentTarget(b)), lists := Pack(ops),
      started := if ok then true else b.started,
      st := b.st.(reading := v.st.reading,
        remaining := if !ok then b.st.remaining else if b.st.reqLen > i then b.st.reqLen - i else 0))
    ensures v == LoadTokens(b).bus && ok == LoadTokens(b).ok && Shape(v)
  {
    hide Shape, CurrentCells, CurrentTarget, Load, Busy, Pack, LoadAddress;
    LoadShape(b);
  }

  lemma DecodePayload(tok: byte, next: byte, d: bool)
    ensures var op := Decode(tok, next, d); op.Some? && op.value.Write? ==> op.value.payload == next
  {
  }
}
