/**
 How far the driver is with the current request: at the list its interrupts have brought it to, with the
 hardware running exactly when that list could be loaded.
 */
module Progress {
  import opened Tokens
  import opened Registers
  import opened Loader
  import opened Memory
  import opened BusModel
  import opened BusRuns
  import opened Conservation
  import opened Ordering
  import opened Execution
  import opened Behind

  // ---------- The lists of a request ----------

  /** The lists follow each other up to the one that finishes the request or meets an unknown token. */
  lemma {:induction false} ListsFollow(c: Cells, i: nat, d: bool, k: nat)
    requires k < |Lists(c, i, d)|
    ensures var all := Lists(c, i, d);
      && (k + 1 < |all| <==> all[k].ok && all[k].next < Len(c))
      && (k + 1 < |all| ==> all[k + 1] == Load(c, all[k].next, all[k].reading))
    decreases k
  {
    hide LoadFrom;
    var ch := Load(c, i, d);
    if ch.ok && ch.next < Len(c) {
      var rest := Lists(c, ch.next, ch.reading);
      assert Lists(c, i, d) == [ch] + rest;
      if k > 0 {
        ListsFollow(c, ch.next, ch.reading, k - 1);
      }
    }
  }

  /** A load that succeeds has met known tokens only. */
  lemma {:induction false} LoadPasses(c: Cells, i: nat, d: bool, acc: seq<Op>)
    requires Fits(acc) && LoadFrom(c, i, d, acc).ok
    ensures var r := LoadFrom(c, i, d, acc); Known(c, i, d) <==> Known(c, r.next, r.reading)
    decreases MAX_TOKENS - |acc|
  {
    hide LoadFrom, Payloads, Decode, Op.Reading, Op.Size;
    LoadStep(c, i, d, acc);
    if |acc| < MAX_TOKENS && |Payloads(acc)| < MAX_DATA {
      if i >= Len(c) {
        LoadPasses(c, i + 1, d, acc + [End]);
      } else {
        var op := Decode(c[i], c[i + 1], d).value;
        LoadPasses(c, i + op.Size(), op.Reading(d), acc + [op]);
      }
    }
  }

  /** All lists of a request can be loaded exactly when its tokens are known. */
  lemma {:induction false} LastListOk(c: Cells, i: nat, d: bool)
    ensures var all := Lists(c, i, d); all[|all| - 1].ok <==> Known(c, i, d)
    decreases |c| - i
  {
    hide LoadFrom, Known;
    var ch := Load(c, i, d);
    if ch.ok {
      LoadPasses(c, i, d, []);
      if ch.next < Len(c) {
        LastListOk(c, ch.next, ch.reading);
      } else {
        PastEndKnown(c, ch.next, ch.reading);
      }
    } else {
      if Known(c, i, d) {
        LoadKnown(c, i, d);
      }
    }
  }

  lemma PastEndKnown(c: Cells, i: nat, d: bool)
    requires i >= Len(c)
    ensures Known(c, i, d)
  {
  }

  // ---------- The invariant ----------

  /** The request cannot be carried out: its address has more than seven bits, or a token is unknown. */
  predicate Bad(r: Request, reading: bool) {
    r.target > 0x7F || !Known(r.data + [0], 0, reading)
  }

  /** The bus is at list number `completed` of the request, and runs it if it could be loaded. */
  predicate At(w: World, r: Request) {
    var all := AllLists(r.data, w.past.reading0);
    var k := w.past.completed;
    && k < |all|
    && w.bus.st.reqLen == |r.data|
    && (r.target > 0x7F ==> k == 0 && !w.bus.started)
    && (r.target <= 0x7F ==> (w.bus.started <==> all[k].ok))
    && (w.bus.started ==>
          && w.bus.st.reading == all[k].reading
          && w.bus.st.remaining == if |r.data| > all[k].next then |r.data| - all[k].next else 0)
  }

  predicate Progressing(w: World)
    requires Shaped(w)
  {
    Busy(w.bus) ==> |Current(w.bus)| == 1 && At(w, Current(w.bus)[0])
  }

  // ---------- Steps ----------

  /** What loading does to the hardware, on the request's own bytes. */
  lemma LoadRuns(b: Bus, r: Request, i: nat)
    requires Shape(b) && Busy(b) && !b.started && Current(b) == [r] && i == b.st.reqLen - b.st.remaining
    ensures var l := LoadTokens(b); var ch := Load(r.data + [0], i, b.st.reading);
      && b.st.reqLen == |r.data|
      && (l.bus.started <==> r.target <= 0x7F && ch.ok)
      && (l.bus.started ==>
            && l.bus.st.reading == ch.reading
            && l.bus.st.remaining == if |r.data| > ch.next then |r.data| - ch.next else 0)
  {
    hide Pack, LoadAddress, LoadFrom, Shape, Current;
    CellsOf(b);
    var x := CurrentCells(b)[b.st.reqLen];
    LoadAlike(r.data, x, 0, i, b.st.reading, [], []);
  }

  /** Taking up a request: the bus is at its first list. */
  lemma AcceptProgress(u: World, a: Bus)
    requires Shape(a) && Busy(a) && !a.started && a.st.remaining == a.st.reqLen
    requires Shaped(Started(u.(bus := LoadTokens(a).bus), a.st.reading))
    ensures Progressing(Started(u.(bus := LoadTokens(a).bus), a.st.reading))
  {
    hide LoadTokens, Shape, Current, InPool, Load, LoadFrom, Lists;
    CellsOf(a);
    LoadKeeps(a);
    LoadShape(a);
    CurrentKept(a, LoadTokens(a).bus);
    LoadRuns(a, Current(a)[0], 0);
  }

  /** What `checkBuf` does to an idle bus. */
  lemma StartProgress(u: World, b: Bus)
    requires Shaped(u) && Progressing(u) && !Busy(u.bus) && CheckBuf(u.bus) == Ok(b)
    requires Shaped(Started(u.(bus := b), u.bus.st.reading))
    ensures Progressing(Started(u.(bus := b), u.bus.st.reading))
  {
    hide LoadTokens, Shape, Accept, At, Current;
    if u.bus.rings.reqUsed != [] {
      AcceptState(u.bus);
      AcceptProgress(u, Accept(u.bus));
    }
  }

  /** The interrupt of a list that did not fail and was not the last: the bus is at the next one. */
  lemma NextProgress(w: World, r: Request, b1: Bus)
    requires w.bus.started && At(w, r) && w.bus.st.remaining != 0 && r.target <= 0x7F
    requires Shape(b1) && Busy(b1) && !b1.started && b1.st == w.bus.st && Current(b1) == [r]
    ensures var all := AllLists(r.data, w.past.reading0); var k := w.past.completed;
      && k + 1 < |all|
      && (LoadTokens(b1).bus.started <==> all[k + 1].ok)
      && (LoadTokens(b1).bus.started ==>
            && LoadTokens(b1).bus.st.reading == all[k + 1].reading
            && LoadTokens(b1).bus.st.remaining ==
               if |r.data| > all[k + 1].next then |r.data| - all[k + 1].next else 0)
  {
    hide LoadTokens, Shape, Current, Load, LoadFrom, Lists;
    var all := AllLists(r.data, w.past.reading0);
    ListsFollow(r.data + [0], 0, w.past.reading0, w.past.completed);
    LoadRuns(b1, r, all[w.past.completed].next);
  }

  lemma ContinueProgress(w: World, ctl: bv32, timeout: bool, p: Work)
    requires Shaped(w) && Progressing(w) && w.bus.started && Busy(w.bus) && !EndsRequest(w.bus, ctl)
    requires Shape(Report(w.bus, ctl, timeout)) && Busy(Report(w.bus, ctl, timeout))
    requires Shape(LoadTokens(Report(w.bus, ctl, timeout)).bus)
    requires Shaped(AfterInterrupt(w, LoadTokens(Report(w.bus, ctl, timeout)).bus, ctl, timeout, p))
    ensures Progressing(AfterInterrupt(w, LoadTokens(Report(w.bus, ctl, timeout)).bus, ctl, timeout, p))
  {
    hide LoadTokens, Shape, Current, Load, LoadFrom, Lists, Report, Failed, InPool, AddressField;
    var b1 := Report(w.bus, ctl, timeout);
    ReportKeeps(w.bus, ctl, timeout);
    CurrentReported(w.bus, ctl, timeout);
    LoadKeeps(b1);
    CurrentKept(b1, LoadTokens(b1).bus);
    var r := Current(w.bus)[0];
    assert Current(b1) == [r];
    NextProgress(w, r, b1);
  }

  /** Progress is about the current request, the driver's state for it and the hardware. */
  lemma SameProgress(w: World, v: World)
    requires Shaped(w) && Shaped(v) && Progressing(w)
    requires Busy(v.bus) ==> Busy(w.bus) && Current(v.bus) == Current(w.bus)
    requires Busy(v.bus) ==> v.bus.started == w.bus.started && v.bus.st == w.bus.st.(notified := v.bus.st.notified)
    requires v.past.completed == w.past.completed && v.past.reading0 == w.past.reading0
    ensures Progressing(v)
  {
    hide Shape, Current, Lists;
  }

  lemma InterruptProgress(w: World, ctl: bv32, timeout: bool, p: Work, b: Bus)
    requires Shaped(w) && Progressing(w) && w.bus.started && Busy(w.bus)
    requires b == Settled(Irq(w.bus, ctl, timeout)) || b == Settled(IrqIntended(w.bus, ctl, timeout))
    requires Shape(b) && Shaped(AfterInterrupt(w, b, ctl, timeout, p))
    ensures Progressing(AfterInterrupt(w, b, ctl, timeout, p))
  {
    hide LoadTokens, CheckBuf, Report, Shape, Failed, NamesToken, Complete, AddressField, Current, At;
    IrqEnds(w.bus, ctl, timeout);
    ReportKeeps(w.bus, ctl, timeout);
    var b1 := Report(w.bus, ctl, timeout);
    if !EndsRequest(w.bus, ctl) {
      LoadShape(b1);
      ContinueProgress(w, ctl, timeout, p);
    } else {
      CompleteState(b1);
      var n := AfterInterrupt(w, b, ctl, timeout, p);
      if b != Complete(b1) {
        CheckBufShape(Complete(b1));
        StartProgress(n.(bus := Complete(b1)), b);
        assert Started(n, w.bus.st.reading) == n;
      }
    }
  }

  /** Every step keeps track. */
  lemma StepProgress(w: World, a: Action)
    requires Shaped(w) && Conserved(w) && Progressing(w)
    ensures Shaped(Standing(Step(w, a))) && Progressing(Standing(Step(w, a)))
  {
    hide Progressing, Conserved, Shaped, DoSubmit, DoNotify, DoTake, DoPop, DoRelease, DoInterrupt, DoInterruptIntended,
         CanInterrupt;
    StepShaped(w, a);
    match a
    case Take(req) => TakeProgress(w, req);
    case Submitting => SubmitProgress(w);
    case Notify => NotifyProgress(w);
    case Interrupt(ctl, timeout, performed, hw) =>
      if CanInterrupt(w, ctl) {
        InterruptsProgress(w, ctl, timeout, performed, hw);
      }
    case InterruptIntended(ctl, timeout, performed, hw) =>
      if CanInterrupt(w, ctl) {
        InterruptsProgress(w, ctl, timeout, performed, hw);
      }
    case Pop => ServerProgress(w, DoPop(w));
    case Release => ServerProgress(w, DoRelease(w));
  }

  lemma TakeProgress(w: World, req: Request)
    requires Shaped(w) && Progressing(w) && Shaped(DoTake(w, req))
    ensures Progressing(DoTake(w, req))
  {
    hide Progressing, Shape, Current;
    CurrentKept(w.bus, DoTake(w, req).bus);
    SameProgress(w, DoTake(w, req));
  }

  /** Popping and releasing do not touch the request in progress. */
  lemma ServerProgress(w: World, v: World)
    requires Shaped(w) && Shaped(v) && Progressing(w)
    requires v == DoPop(w) || v == DoRelease(w)
    ensures Progressing(v)
  {
    hide Progressing, Shape, Current, HeaderAt;
    CurrentKept(w.bus, v.bus);
    SameProgress(w, v);
  }

  /** Submitting writes into another buffer than the current request's. */
  lemma SubmitKeepsCurrent(w: World)
    requires Shaped(w) && Conserved(w) && w.taking.Taking?
    ensures Shape(DoSubmit(w).bus) && Current(DoSubmit(w).bus) == Current(w.bus)
    ensures DoSubmit(w).bus.st == w.bus.st && DoSubmit(w).bus.started == w.bus.started
  {
    hide Bag, Shape, OnlyWrote, Conserved, InPool, Current, RequestAt, Store;
    var t := w.taking;
    NoRingOverflows(w);
    Distinct(w);
    SubmitFacts(w.bus, t.buf, t.req);
    CurrentSame(w.bus, DoSubmit(w).bus, t.buf);
  }

  lemma SubmitProgress(w: World)
    requires Shaped(w) && Conserved(w) && Progressing(w)
    ensures Shaped(DoSubmit(w)) ==> Progressing(DoSubmit(w))
  {
    hide Progressing, Conserved, Shape, Submit, Current;
    if w.taking.Taking? && Shaped(DoSubmit(w)) {
      SubmitKeepsCurrent(w);
      SameProgress(w, DoSubmit(w));
    }
  }

  lemma NotifyProgress(w: World)
    requires Shaped(w) && Progressing(w)
    ensures Shaped(Standing(DoNotify(w))) && Progressing(Standing(DoNotify(w)))
  {
    hide Progressing, LoadTokens, Accept, Shape, Current;
    NotifyShaped(w);
    NotifyStands(w);
    if CheckBuf(w.bus).Ok? {
      if !Busy(w.bus) {
        StartProgress(w, CheckBuf(w.bus).bus);
      } else {
        CurrentKept(w.bus, CheckBuf(w.bus).bus);
        SameProgress(w, w.(bus := CheckBuf(w.bus).bus));
      }
    }
  }

  lemma InterruptsProgress(w: World, ctl: bv32, timeout: bool, performed: nat, hw: bool)
    requires Shaped(w) && Progressing(w) && CanInterrupt(w, ctl)
    ensures var v := Standing(DoInterrupt(w, ctl, timeout, performed, hw)); Shaped(v) && Progressing(v)
    ensures var v := Standing(DoInterruptIntended(w, ctl, timeout, performed, hw)); Shaped(v) && Progressing(v)
  {
    hide Progressing, Shape, Irq, IrqIntended, Hardware, AfterInterrupt, DoInterrupt, DoInterruptIntended, Settled;
    StartedBusy(w.bus);
    InterruptStands(w, ctl, timeout, performed, hw);
    var p := Hardware(w, ctl, timeout, performed, hw);
    InterruptProgress(w, ctl, timeout, p, Settled(Irq(w.bus, ctl, timeout)));
    InterruptProgress(w, ctl, timeout, p, Settled(IrqIntended(w.bus, ctl, timeout)));
  }

  // ---------- What happens to a request in progress meanwhile ----------

  /** The same request is in progress, at the same list. */
  predicate SameRequest(w: World, v: World)
    requires Shaped(w) && Shaped(v)
  {
    && Current(v.bus) == Current(w.bus)
    && v.bus.started == w.bus.started && v.bus.st == w.bus.st.(notified := v.bus.st.notified)
    && v.past.done == w.past.done && v.past.completed == w.past.completed && v.past.reading0 == w.past.reading0
  }

  /** Steps other than interrupts leave a request in progress alone, and none of them crashes the driver. */
  lemma OthersKeepRequest(w: World, a: Action)
    requires Shaped(w) && Conserved(w) && Busy(w.bus) && !a.Interrupt? && !a.InterruptIntended?
    ensures Step(w, a).Next? && Shaped(Step(w, a).w) && SameRequest(w, Step(w, a).w)
    ensures Step(w, a).w.bus.st.notified == if a.Notify? then w.bus.rings.reqUsed != [] else w.bus.st.notified
  {
    hide Conserved, Shape, DoSubmit, DoTake, DoPop, DoRelease, DoNotify, Current;
    StepShaped(w, a);
    match a
    case Take(req) => TakeKeepsRequest(w, req);
    case Submitting => SubmitKeepsRequest(w);
    case Notify => NotifyKeepsRequest(w);
    case Pop => PopKeepsRequest(w);
    case Release => ReleaseKeepsRequest(w);
  }

  lemma TakeKeepsRequest(w: World, req: Request)
    requires Shaped(w) && Shaped(DoTake(w, req))
    ensures SameRequest(w, DoTake(w, req)) && DoTake(w, req).bus.st == w.bus.st
  {
    hide Shape, Current;
    CurrentKept(w.bus, DoTake(w, req).bus);
  }

  lemma SubmitKeepsRequest(w: World)
    requires Shaped(w) && Conserved(w) && Shaped(DoSubmit(w))
    ensures SameRequest(w, DoSubmit(w)) && DoSubmit(w).bus.st == w.bus.st
  {
    hide Shape, Current, Submit, Conserved;
    if w.taking.Taking? {
      SubmitKeepsCurrent(w);
    }
  }

  lemma NotifyKeepsRequest(w: World)
    requires Shaped(w) && Busy(w.bus)
    ensures DoNotify(w).Next? && Shaped(DoNotify(w).w) && SameRequest(w, DoNotify(w).w)
    ensures DoNotify(w).w.bus.st.notified == (w.bus.rings.reqUsed != [])
  {
    hide Shape, Current, LoadTokens, Accept;
    NotifyShaped(w);
    CurrentKept(w.bus, DoNotify(w).w.bus);
  }

  lemma PopKeepsRequest(w: World)
    requires Shaped(w) && Shaped(DoPop(w))
    ensures SameRequest(w, DoPop(w)) && DoPop(w).bus.st == w.bus.st
  {
    hide Shape, Current, HeaderAt;
    CurrentKept(w.bus, DoPop(w).bus);
  }

  lemma ReleaseKeepsRequest(w: World)
    requires Shaped(w) && Shaped(DoRelease(w))
    ensures SameRequest(w, DoRelease(w)) && DoRelease(w).bus.st == w.bus.st
  {
    hide Shape, Current;
    CurrentKept(w.bus, DoRelease(w).bus);
  }
}
