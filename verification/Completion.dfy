/**
 When a request completes: which requests do, after how many interrupts, and which block their bus for good.
 */
module Completion {
  import opened Tokens
  import opened Registers
  import opened Loader
  import opened Memory
  import opened BusModel
  import opened BusRuns
  import opened Conservation
  import opened Ordering
  import opened Execution
  import opened Outcomes
  import opened Progress
  import opened Invariant
  import opened BusProperties

  /** Schedules of the code as written in which no interrupt reports an error. */
  predicate ErrorFree(acts: seq<Action>) {
    forall a <- acts :: !a.InterruptIntended? && (a.Interrupt? ==> a.ctl & 0x8 == 0)
  }

  /** The interrupts of a schedule. */
  function Interrupts(acts: seq<Action>): nat
    decreases |acts|
  {
    if acts == [] then 0 else (if acts[0].Interrupt? then 1 else 0) + Interrupts(acts[1..])
  }

  /** The number of the list a request stops at: its last one, or the first for a bad address. */
  function StopsAt(r: Request, reading: bool): nat {
    if r.target > 0x7F then 0 else |AllLists(r.data, reading)| - 1
  }

  /** The bus is busy with a request it does not carry out. */
  predicate Stuck(b: Bus) {
    Busy(b) && !b.started
  }

  /** From `w` to `v` the request in progress and what is finished are the same. */
  predicate SameTask(w: World, v: World)
    requires Shaped(w) && Shaped(v)
  {
    Current(v.bus) == Current(w.bus) && v.past.done == w.past.done && v.past.reading0 == w.past.reading0
  }

  /** The request in progress, `k` lists of it completed. */
  predicate InProgress(w: World, r: Request, k: nat)
    requires Shaped(w)
  {
    Busy(w.bus) && Current(w.bus) == [r] && w.past.completed == k
  }

  // ---------- One step ----------

  /** A request in progress is at a list up to the one it stops at, and its hardware runs unless it is bad and
      has come that far. */
  lemma WhereItIs(w: World, r: Request, k: nat)
    requires Core(w) && InProgress(w, r, k)
    ensures k <= StopsAt(r, w.past.reading0)
    ensures w.bus.started <==> k < StopsAt(r, w.past.reading0) || !Bad(r, w.past.reading0)
    ensures w.bus.started ==> (w.bus.st.remaining == 0 <==> k == StopsAt(r, w.past.reading0))
  {
    hide Conserved, Ordered, Executed, Shape, Current, Lists, Known, LoadFrom;
    var all := AllLists(r.data, w.past.reading0);
    ListsFollow(r.data + [0], 0, w.past.reading0, k);
    LastListOk(r.data + [0], 0, w.past.reading0);
  }

  /** A clean interrupt before the last list brings the request one list further. */
  lemma InterruptGoesOn(w: World, r: Request, k: nat, a: Action)
    requires Inv(w) && InProgress(w, r, k) && a.Interrupt? && a.ctl & 0x8 == 0 && k < StopsAt(r, w.past.reading0)
    ensures Act(w, a).Next? && SameTask(w, Act(w, a).w) && InProgress(Act(w, a).w, r, k + 1)
  {
    hide Kept, Shape, Current, LoadTokens, Report, ErrorToken, AddressField, Hardware, StopsAt, HwList, Bad;
    WhereItIs(w, r, k);
    ReportShape(w.bus, a.ctl, a.timeout);
    ReportKeeps(w.bus, a.ctl, a.timeout);
    CurrentReported(w.bus, a.ctl, a.timeout);
    var b1 := Report(w.bus, a.ctl, a.timeout);
    LoadKeeps(b1);
    LoadShape(b1);
    CurrentKept(b1, LoadTokens(b1).bus);
  }

  /** What the record says of a request that has been returned as a success: if it is well-formed it did what it
      means, exactly if no timeout cut a list of it short. */
  predicate ReturnedWell(w: World, v: World, r: Request) {
    && |v.past.done| == |w.past.done| + 1 && v.past.done[..|w.past.done|] == w.past.done
    && var e := v.past.done[|w.past.done|];
       e.req == r && !e.Failed() && (RequestOk(r.data) ==> (e.events == Meaning(r.data, e.sent, false) <==> !e.cut))
  }

  /** The clean interrupt of the last list returns the request.  If a notification was deferred the driver crashes
      afterwards. */
  lemma InterruptEnds(w: World, r: Request, a: Action)
    requires Inv(w) && Busy(w.bus) && Current(w.bus) == [r] && w.bus.started && w.bus.st.remaining == 0
    requires a.Interrupt? && a.ctl & 0x8 == 0
    ensures var v := Act(w, a).w;
      && |v.past.done| == |w.past.done| + 1 && v.past.done[..|w.past.done|] == w.past.done
      && v.past.done[|w.past.done|].req == r && !v.past.done[|w.past.done|].Failed() && !Busy(v.bus)
    ensures Act(w, a).Crash? <==> w.bus.st.notified
    ensures Act(w, a).Crash? ==> Crashes(Act(w, a), NullRequest) && Act(w, a).popped == []
  {
    hide Kept, Shape, Current, LoadTokens, Report, Complete, ErrorToken, AddressField, Hardware;
    IrqEnds(w.bus, a.ctl, a.timeout);
    ReportKeeps(w.bus, a.ctl, a.timeout);
    CompleteState(Report(w.bus, a.ctl, a.timeout));
  }

  /** It returns it as a success. */
  lemma InterruptFinishes(w: World, r: Request, k: nat, a: Action)
    requires Inv(w) && InProgress(w, r, k) && a.Interrupt? && a.ctl & 0x8 == 0
    requires k == StopsAt(r, w.past.reading0) && !Bad(r, w.past.reading0)
    ensures ReturnedWell(w, Act(w, a).w, r) && !Busy(Act(w, a).w.bus)
    ensures Act(w, a).Crash? <==> w.bus.st.notified
    ensures Act(w, a).Crash? ==> Crashes(Act(w, a), NullRequest) && Act(w, a).popped == []
  {
    hide Kept, Shaped, Current, StopsAt, Bad, Meaning, RequestOk, DoneOk, Act;
    WhereItIs(w, r, k);
    InterruptEnds(w, r, a);
    FinishedMeans(w, a);
    var v := Act(w, a).w;
    assert v.past.done[|w.past.done|] in v.past.done;
    if RequestOk(r.data) {
      WellFormedOutcome(v.past.done[|w.past.done|]);
    }
  }

  /** What a step adds to the finished requests is what they mean. */
  lemma FinishedMeans(w: World, a: Action)
    requires Core(w)
    ensures forall e <- Act(w, a).w.past.done :: DoneOk(e)
  {
    hide Shape, Conserved, Ordered, Progressing, Executing, Addressing, SentOk, DoneOk, Step, Act;
    StepCore(w, a);
    ActStands(w, a);
  }

  lemma ActStands(w: World, a: Action)
    requires Shaped(w)
    ensures Standing(Step(w, a)).past == Act(w, a).w.past
  {
    hide Shaped, Step;
  }

  /** Taking up a request starts the hardware exactly when its address has seven bits and no unknown token comes
      before its first list is full: it has none, or sixteen operations or eight payloads come first. */
  lemma StartsExactly(b: Bus)
    requires Shape(b) && !Busy(b) && b.rings.reqUsed != [] && b.rings.retFree != []
    ensures CheckBuf(b).Ok? && |Waiting(b)| > 0
    ensures var r := Waiting(b)[0]; var ops := Parse(r.data + [0], 0, b.st.reading);
      CheckBuf(b).bus.started <==>
        r.target <= 0x7F &&
        (Known(r.data + [0], 0, b.st.reading) || |ops| >= MAX_TOKENS || |Payloads(ops)| >= MAX_DATA)
  {
    hide LoadTokens, Shape, Accept, Current, Known, Parse, Payloads, LoadFrom;
    AcceptState(b);
    AcceptedCurrent(b);
    var r := Waiting(b)[0];
    LoadRuns(Accept(b), r, 0);
    LoadsExactly(r.data + [0], 0, b.st.reading, []);
    assert [] + Parse(r.data + [0], 0, b.st.reading) == Parse(r.data + [0], 0, b.st.reading);
  }

  // ---------- Runs ----------

  /** In a schedule without errors a request goes on by one list an interrupt, up to the list it stops at:
      the last one if it is good, for which the interrupt has not come yet, and the one that blocks the bus if
      it is bad. */
  lemma {:induction false} RunGoesOn(w: World, r: Request, k: nat, acts: seq<Action>)
    requires Inv(w) && InProgress(w, r, k) && ErrorFree(acts)
    requires Bad(r, w.past.reading0) || k + Interrupts(acts) <= StopsAt(r, w.past.reading0)
    ensures var n := Run(w, acts);
      && n.Next? && Inv(n.w) && SameTask(w, n.w)
      && var m := k + Interrupts(acts); var s := StopsAt(r, w.past.reading0);
         InProgress(n.w, r, if m < s then m else s)
    decreases |acts|
  {
    hide Kept, Shaped, Act, StopsAt, Bad, Current;
    WhereItIs(w, r, k);
    if acts != [] {
      var a := acts[0];
      assert a in acts;
      OneGoesOn(w, r, k, a);
      ActInv(w, a);
      var k' := if a.Interrupt? && k < StopsAt(r, w.past.reading0) then k + 1 else k;
      RunGoesOn(Act(w, a).w, r, k', acts[1..]);
    }
  }

  lemma OneGoesOn(w: World, r: Request, k: nat, a: Action)
    requires Inv(w) && InProgress(w, r, k) && !a.InterruptIntended? && (a.Interrupt? ==> a.ctl & 0x8 == 0)
    requires Bad(r, w.past.reading0) || !a.Interrupt? || k < StopsAt(r, w.past.reading0)
    ensures Act(w, a).Next? && SameTask(w, Act(w, a).w)
    ensures InProgress(Act(w, a).w, r, if a.Interrupt? && k < StopsAt(r, w.past.reading0) then k + 1 else k)
  {
    hide Conserved, Ordered, Executed, Progressing, Shape, StopsAt, Bad, Current, DoInterrupt;
    WhereItIs(w, r, k);
    if !a.Interrupt? {
      OthersKeepRequest(w, a);
    } else if k < StopsAt(r, w.past.reading0) {
      InterruptGoesOn(w, r, k, a);
    }
  }

  /** Completion, exactly: a good request in progress, `k` of its lists completed, is returned as a success,
      having done on the bus what it means unless a timeout cut a list of it short, by the interrupt that makes
      the number of clean interrupts equal to that of its lists, and not before; whatever else happens
      meanwhile. */
  lemma CompletesExactly(w: World, r: Request, k: nat, acts: seq<Action>, last: Action)
    requires Inv(w) && InProgress(w, r, k) && !Bad(r, w.past.reading0)
    requires ErrorFree(acts) && last.Interrupt? && last.ctl & 0x8 == 0
    requires k + Interrupts(acts) + 1 == |AllLists(r.data, w.past.reading0)|
    ensures Run(w, acts).Next? && Run(w, acts).w.past.done == w.past.done
    ensures ReturnedWell(w, Run(w, acts + [last]).w, r) && !Busy(Run(w, acts + [last]).w.bus)
    ensures Run(w, acts + [last]).Crash? <==> Run(w, acts).w.bus.st.notified
    ensures !w.past.cut && NoSilentTimeouts(acts + [last]) ==> !Run(w, acts + [last]).w.past.done[|w.past.done|].cut
  {
    hide Kept, Shaped, Act, Run, Known, Current, Meaning, RequestOk, Lists;
    RunGoesOn(w, r, k, acts);
    var n := Run(w, acts);
    InterruptFinishes(n.w, r, |AllLists(r.data, w.past.reading0)| - 1, last);
    RunConcat(w, acts, [last]);
    RunCons(n.w, last, []);
    RunNothing(Act(n.w, last).w);
    assert [last] + [] == [last];
    if !w.past.cut && NoSilentTimeouts(acts + [last]) {
      NothingCut(w, acts + [last]);
    }
  }

  /** A notification that finds the bus idle and a request queued takes it up, none of its lists completed. */
  lemma TakesUp(w: World)
    requires Inv(w) && !Busy(w.bus) && w.bus.rings.reqUsed != [] && w.bus.rings.retFree != []
    ensures |Waiting(w.bus)| > 0
    ensures var v := Act(w, Notify).w;
      && Act(w, Notify).Next? && InProgress(v, Waiting(w.bus)[0], 0)
      && v.past.done == w.past.done && v.past.reading0 == w.bus.st.reading && !v.past.cut
  {
    hide Executed, Ordered, Progressing, Conserved, LoadTokens, Accept, Shape, RequestAt;
    AcceptFacts(w.bus);
    AcceptState(w.bus);
    var a := Accept(w.bus);
    LoadKeeps(a);
    LoadShape(a);
    CurrentKept(a, LoadTokens(a).bus);
    AcceptedCurrent(w.bus);
  }

  lemma AcceptedCurrent(b: Bus)
    requires Shape(b) && !Busy(b) && b.rings.reqUsed != [] && b.rings.retFree != []
    ensures Shape(Accept(b)) && Current(Accept(b)) == [Waiting(b)[0]]
  {
    hide Shape, Accept, RequestAt, OnlyWrote;
    AcceptFacts(b);
    var d, q := b.rings.reqUsed[0], b.rings.retFree[0].addr;
    PoolsDisjoint(b.base, d.addr, q);
    RequestSame(b, Accept(b), q, d);
  }

  /** From acceptance to the answer: a well-formed request with a seven-bit address, next in the queue, is
      returned as a success after exactly as many clean interrupts as it has lists, which for n bytes are
      ceil(n/24) to ceil(n/16), and one for none; it has done what it means if none of them was a timeout. */
  lemma RequestCompletes(w: World, acts: seq<Action>, last: Action)
    requires Inv(w) && !Busy(w.bus) && w.bus.rings.reqUsed != [] && w.bus.rings.retFree != []
    requires |Waiting(w.bus)| > 0 && RequestOk(Waiting(w.bus)[0].data) && Waiting(w.bus)[0].target <= 0x7F
    requires ErrorFree(acts) && last.Interrupt? && last.ctl & 0x8 == 0
    requires Interrupts(acts) + 1 == |AllLists(Waiting(w.bus)[0].data, w.bus.st.reading)|
    ensures var r := Waiting(w.bus)[0]; var n := |r.data|; var lists := |AllLists(r.data, w.bus.st.reading)|;
      && Run(w, [Notify] + acts).Next? && Run(w, [Notify] + acts).w.past.done == w.past.done
      && ReturnedWell(w, Run(w, [Notify] + (acts + [last])).w, r)
      && (NoSilentTimeouts(acts + [last]) ==>
          var e := Run(w, [Notify] + (acts + [last])).w.past.done[|w.past.done|];
          !e.cut && e.events == Meaning(r.data, e.sent, false))
      && (if n == 0 then lists == 1 else (n + 23) / 24 <= lists <= (n + 15) / 16)
  {
    hide Kept, Shape, Act, Run, Current, Meaning, RequestOk, AllLists, Waiting;
    var r := Waiting(w.bus)[0];
    TakesUp(w);
    ActInv(w, Notify);
    GoodRequest(r, w.bus.st.reading);
    CompletesExactly(Act(w, Notify).w, r, 0, acts, last);
    RunCons(w, Notify, acts);
    RunCons(w, Notify, acts + [last]);
  }

  lemma GoodRequest(r: Request, d: bool)
    requires RequestOk(r.data) && r.target <= 0x7F
    ensures !Bad(r, d)
    ensures var n := |r.data|; var lists := |AllLists(r.data, d)|;
      if n == 0 then lists == 1 else (n + 23) / 24 <= lists <= (n + 15) / 16
  {
    hide Known, Lists, WellFormed;
    RequestParse(r.data, d);
    ListCount(r.data + [0], 0, d);
  }

  // ---------- Requests that block the bus ----------

  lemma {:induction false} DoneGrows(w: World, acts: seq<Action>)
    requires Shaped(w)
    ensures |Run(w, acts).w.past.done| >= |w.past.done|
    decreases |acts|
  {
    hide Shaped, Act;
    if acts != [] {
      DoneStep(w, acts[0]);
      var n := Act(w, acts[0]);
      if n.Next? {
        DoneGrows(n.w, acts[1..]);
      }
    }
  }

  lemma DoneStep(w: World, a: Action)
    requires Shaped(w)
    ensures |Act(w, a).w.past.done| >= |w.past.done|
  {
    hide Shaped, Shape, Submit, CheckBuf, Irq, IrqIntended, Hardware, HeaderAt, NamesToken, EndsRequest, AddressField,
      Current;
  }

  /** A good request is returned once there have been as many clean interrupts as it has lists. */
  lemma {:induction false} GoodReturns(w: World, r: Request, k: nat, acts: seq<Action>)
    requires Inv(w) && InProgress(w, r, k) && ErrorFree(acts) && !Bad(r, w.past.reading0)
    requires k + Interrupts(acts) > StopsAt(r, w.past.reading0)
    ensures |Run(w, acts).w.past.done| > |w.past.done|
    decreases |acts|
  {
    hide Kept, Shaped, Act, StopsAt, Bad, Current, Meaning, RequestOk;
    WhereItIs(w, r, k);
    assert acts != [];
    var a := acts[0];
    assert a in acts;
    if a.Interrupt? && k == StopsAt(r, w.past.reading0) {
      InterruptFinishes(w, r, k, a);
      if Act(w, a).Next? {
        DoneGrows(Act(w, a).w, acts[1..]);
      }
    } else {
      OneGoesOn(w, r, k, a);
      ActInv(w, a);
      GoodReturns(Act(w, a).w, r, if a.Interrupt? then k + 1 else k, acts[1..]);
    }
  }

  /** Which requests block their bus, exactly: given as many clean interrupts as it has lists, and no error to
      end it first, a request is still in progress if and only if its address has more than seven bits or its
      chain holds an unknown token; the hardware is then stopped. */
  lemma WedgesExactly(w: World, r: Request, k: nat, acts: seq<Action>)
    requires Inv(w) && InProgress(w, r, k) && ErrorFree(acts)
    requires k + Interrupts(acts) >= |AllLists(r.data, w.past.reading0)|
    ensures Bad(r, w.past.reading0) <==> Run(w, acts).w.past.done == w.past.done
    ensures Bad(r, w.past.reading0) ==>
      Run(w, acts).Next? && Inv(Run(w, acts).w) && SameTask(w, Run(w, acts).w) && Stuck(Run(w, acts).w.bus)
  {
    hide Kept, Shaped, Run, Bad, Current, Lists;
    if Bad(r, w.past.reading0) {
      RunGoesOn(w, r, k, acts);
      var n := Run(w, acts);
      WhereItIs(n.w, r, StopsAt(r, w.past.reading0));
    } else {
      GoodReturns(w, r, k, acts);
    }
  }

  lemma WedgedStep(w: World, a: Action)
    requires Inv(w) && Stuck(w.bus)
    ensures Act(w, a).Next? && Stuck(Act(w, a).w.bus) && SameTask(w, Act(w, a).w)
  {
    hide Executed, Ordered, Progressing, Conserved, Shape, Current, DoInterrupt, DoInterruptIntended;
    if !a.Interrupt? && !a.InterruptIntended? {
      OthersKeepRequest(w, a);
    }
  }

  /** A stuck request blocks its bus for good, also against errors: `checkBuf` and `i2cirq` have ignored the
      failed load, no list runs, and no run ever returns a request on this bus again. */
  lemma {:induction false} FailedLoadWedges(w: World, acts: seq<Action>)
    requires Inv(w) && Stuck(w.bus)
    ensures Run(w, acts).Next? && Stuck(Run(w, acts).w.bus) && SameTask(w, Run(w, acts).w)
    decreases |acts|
  {
    hide Kept, Shaped, Act;
    if acts != [] {
      WedgedStep(w, acts[0]);
      ActInv(w, acts[0]);
      FailedLoadWedges(Act(w, acts[0]).w, acts[1..]);
    }
  }

  /** The first submission after initialisation. */
  lemma FirstSubmission(w0: World, r: Request)
    requires Initial(w0) && |r.data| <= 510
    ensures Shaped(w0) && Run(w0, [Take(r), Submitting]).Next?
    ensures var w := Run(w0, [Take(r), Submitting]).w;
      && Inv(w) && !Busy(w.bus) && w.bus.rings.reqUsed != [] && w.bus.rings.retFree != [] && w.bus.rings.reqFree != []
      && Waiting(w.bus) == [r] && w.past.done == [] && w.taking == Nothing
      && w.bus.st.reading == w0.bus.st.reading
  {
    hide Kept, Shape, Store, Waiting, Current, Requests, Act, Run, Pool;
    InitialInv(w0);
    var acts := [Take(r), Submitting];
    RunInv(w0, acts);
    var w1 := Act(w0, Take(r)).w;
    FirstTake(w0, r);
    ActInv(w0, Take(r));
    FirstSubmit(w1, r);
    ActInv(w1, Submitting);
    RunCons(w1, Submitting, []);
    RunNothing(Act(w1, Submitting).w);
    assert [Submitting] + [] == [Submitting];
    RunCons(w0, Take(r), [Submitting]);
    assert [Take(r)] + [Submitting] == acts;
    QueuedFirst(Act(w1, Submitting).w, r);
  }

  lemma FirstTake(w0: World, r: Request)
    requires Initial(w0) && Shaped(w0) && |r.data| <= 510
    ensures Act(w0, Take(r)).Next?
    ensures var w := Act(w0, Take(r)).w;
      && w.taking.Taking? && w.taking.req == r && |w.bus.rings.reqFree| == BUF_COUNT - 1
      && w.bus.rings.reqUsed == [] && |w.bus.rings.retFree| == BUF_COUNT && w.bus.st == w0.bus.st
      && w.past == w0.past
  {
    hide Shape;
  }

  lemma FirstSubmit(w: World, r: Request)
    requires Shaped(w) && w.taking.Taking? && w.taking.req == r && w.bus.rings.reqUsed == []
    ensures Act(w, Submitting).Next?
    ensures var v := Act(w, Submitting).w;
      && v.taking == Nothing && v.bus.rings == w.bus.rings.(reqUsed := v.bus.rings.reqUsed)
      && v.bus.rings.reqUsed != [] && v.bus.st == w.bus.st
      && v.past == w.past.(submitted := w.past.submitted + [r])
  {
    hide Shape, Store;
  }

  lemma QueuedFirst(w: World, r: Request)
    requires Inv(w) && !Busy(w.bus) && w.past.done == [] && w.past.submitted == [] + [r]
    ensures Waiting(w.bus) == [r]
  {
    hide Conserved, Executed, Progressing, Shape, Waiting;
    assert Requests([]) == [] && Current(w.bus) == [];
    assert [] + [] + Waiting(w.bus) == Waiting(w.bus);
  }

  /** After initialisation, one request to the address 0x80, which has eight bits, blocks its bus for ever. */
  lemma BadAddressWedges(w0: World, client: byte, data: seq<byte>, acts: seq<Action>)
    requires Initial(w0) && |data| <= 510
    ensures Shaped(w0)
    ensures var r := Run(w0, [Take(Request(client, 0x80, data)), Submitting] + ([Notify] + acts));
      r.Next? && Stuck(r.w.bus) && r.w.past.done == []
  {
    hide Kept, Shape, Act, Run, Waiting, Current;
    var r := Request(client, 0x80, data);
    FirstSubmission(w0, r);
    InitialInv(w0);
    var w := Run(w0, [Take(r), Submitting]).w;
    TakesUp(w);
    ActInv(w, Notify);
    var v := Act(w, Notify).w;
    BadAtOnce(v, r);
    FailedLoadWedges(v, acts);
    RunCons(w, Notify, acts);
    RunConcat(w0, [Take(r), Submitting], [Notify] + acts);
  }

  lemma BadAtOnce(v: World, r: Request)
    requires Inv(v) && InProgress(v, r, 0) && r.target > 0x7F
    ensures Stuck(v.bus)
  {
    hide Kept, Shape, Current, Known;
    WhereItIs(v, r, 0);
  }

  // ---------- Deferred notifications ----------

  /** Two requests submitted and notified one after the other, the second before the first has ended: the
      interrupt that ends the first crashes the driver. */
  lemma SecondSubmissionCrashes(w: World, r: Request, ctl: bv32, timeout: bool, performed: nat, hw: bool)
    requires Inv(w) && w.bus.started && CanInterrupt(w, ctl) && EndsRequest(w.bus, ctl)
    requires w.taking == Nothing && |r.data| <= 510 && w.bus.rings.reqFree != []
    ensures Crashes(Run(w, [Take(r), Submitting, Notify, Interrupt(ctl, timeout, performed, hw)]), NullRequest)
  {
    hide Executed, Ordered, Conserved, LoadTokens, Failed, NamesToken, Hardware, Store, HeaderAt, Kept,
         Shaped, Act, Run, Report, Complete;
    var i := Interrupt(ctl, timeout, performed, hw);
    Second1(w, r);
    ActInv(w, Take(r));
    var w1 := Act(w, Take(r)).w;
    assert w1.bus.st == w.bus.st && w1.bus.started;
    Second2(w1);
    ActInv(w1, Submitting);
    var w2 := Act(w1, Submitting).w;
    Second3(w2);
    ActInv(w2, Notify);
    var w3 := Act(w2, Notify).w;
    CrashesExactly(w3, ctl, timeout, performed, hw);
    RunCons(w3, i, []);
    assert [i] + [] == [i];
    RunCons(w2, Notify, [i]);
    assert [Notify] + [i] == [Notify, i];
    RunCons(w1, Submitting, [Notify, i]);
    assert [Submitting] + [Notify, i] == [Submitting, Notify, i];
    RunCons(w, Take(r), [Submitting, Notify, i]);
    assert [Take(r)] + [Submitting, Notify, i] == [Take(r), Submitting, Notify, i];
    assert CanInterrupt(w3, ctl) && EndsRequest(w3.bus, ctl);
    assert Crashes(Act(w3, i), NullRequest);
  }

  lemma Second1(w: World, r: Request)
    requires Inv(w) && w.bus.started && w.taking == Nothing && |r.data| <= 510 && w.bus.rings.reqFree != []
    ensures Act(w, Take(r)).Next?
    ensures var v := Act(w, Take(r)).w; v.taking.Taking? && v.bus == TakeReq(w.bus)
  {
    hide Kept, Shape, DeferralSound;
  }

  lemma Second2(w: World)
    requires Inv(w) && w.bus.started && w.taking.Taking?
    ensures Act(w, Submitting).Next?
    ensures var v := Act(w, Submitting).w;
      v.bus.rings.reqUsed != [] && v.bus.st == w.bus.st && v.bus.started
  {
    hide Executed, Ordered, Conserved, Store;
  }

  lemma Second3(w: World)
    requires Inv(w) && w.bus.started && w.bus.rings.reqUsed != []
    ensures Act(w, Notify).Next?
    ensures Act(w, Notify).w.bus == w.bus.(st := w.bus.st.(notified := true))
  {
    hide Executed, Ordered, Conserved, LoadTokens, Accept;
    StartedBusy(w.bus);
  }

  /** The two requests of the clock test: set the year register, and read it back. */
  const SET_YEAR: seq<byte> :=
    [TK_START, TK_ADDRW, TK_DAT, 0x6, TK_DAT, 0x20, TK_DAT, 0x24, TK_STOP, TK_END]
  const READ_YEAR: seq<byte> :=
    [TK_START, TK_ADDRW, TK_DAT, 0x6, TK_START, TK_ADDRR, TK_DAT, TK_DATA_END, TK_STOP, TK_END]

  lemma SetYearKnown(d: bool)
    ensures Known(SET_YEAR + [0], 0, d)
  {
    var c := SET_YEAR + [0];
    assert Known(c, 9, false);
    assert Known(c, 8, false);
    assert Known(c, 6, false);
    assert Known(c, 4, false);
    assert Known(c, 2, false);
    assert Known(c, 1, d);
  }

  lemma SetYearOneList(d: bool)
    ensures !Bad(Request(1, 0x68, SET_YEAR), d) && |AllLists(SET_YEAR, d)| == 1
  {
    hide Known, Load;
    SetYearKnown(d);
    var c := SET_YEAR + [0];
    LoadKnown(c, 0, d);
    ChunkSize(c, 0, d);
  }

  lemma OnlyList(v: World, r: Request)
    requires Inv(v) && InProgress(v, r, 0) && !Bad(r, v.past.reading0) && |AllLists(r.data, v.past.reading0)| == 1
    ensures v.bus.started && CanInterrupt(v, 0) && EndsRequest(v.bus, 0)
  {
    hide Kept, Shape, Current, Known, Lists;
    WhereItIs(v, r, 0);
  }

  lemma FreeAfterNotify(w: World)
    requires Inv(w) && !Busy(w.bus) && w.bus.rings.reqUsed != [] && w.bus.rings.retFree != []
    ensures Act(w, Notify).w.taking == w.taking && Act(w, Notify).w.bus.rings.reqFree == w.bus.rings.reqFree
  {
    hide Kept, Shape, LoadTokens, Accept;
    AcceptFacts(w.bus);
    LoadKeeps(Accept(w.bus));
  }

  lemma NoInterrupts(r: Request)
    ensures ErrorFree([Take(r), Submitting, Notify]) && Interrupts([Take(r), Submitting, Notify]) == 0
  {
    var acts := [Take(r), Submitting, Notify];
    assert Interrupts([]) == 0;
    assert [Notify][1..] == [] && Interrupts([Notify]) == 0;
    assert [Submitting, Notify][1..] == [Notify] && Interrupts([Submitting, Notify]) == 0;
    assert acts[1..] == [Submitting, Notify];
  }

  /** The clock test after initialisation: both requests are submitted and notified, and the clean interrupt of
      the first, though it returns that request as a success, crashes the driver. */
  lemma ClockTestCrashes(w0: World, timeout: bool, performed: nat, hw: bool)
    requires Initial(w0)
    ensures Shaped(w0)
    ensures var i := Interrupt(0, timeout, performed, hw);
      var first, second := Request(1, 0x68, SET_YEAR), Request(1, 0x68, READ_YEAR);
      var r := Run(w0, [Take(first), Submitting] + ([Notify] + [Take(second), Submitting, Notify, i]));
      Crashes(r, NullRequest) && |r.w.past.done| == 1 && r.w.past.done[0].req == first && !r.w.past.done[0].Failed()
  {
    hide Kept, Shape, Act, Run, Waiting, Current, Bad, AllLists;
    var i := Interrupt(0, timeout, performed, hw);
    var first, second := Request(1, 0x68, SET_YEAR), Request(1, 0x68, READ_YEAR);
    FirstSubmission(w0, first);
    InitialInv(w0);
    var w := Run(w0, [Take(first), Submitting]).w;
    TakesUp(w);
    ActInv(w, Notify);
    var v := Act(w, Notify).w;
    SetYearOneList(w.bus.st.reading);
    RunCons(w, Notify, [Take(second), Submitting, Notify, i]);
    RunConcat(w0, [Take(first), Submitting], [Notify] + [Take(second), Submitting, Notify, i]);
    OnlyList(v, first);
    FreeAfterNotify(w);
    SecondSubmissionCrashes(v, second, 0, timeout, performed, hw);
    var acts := [Take(second), Submitting, Notify];
    NoInterrupts(second);
    CompletesExactly(v, first, 0, acts, i);
    assert acts + [i] == [Take(second), Submitting, Notify, i];
  }
}
