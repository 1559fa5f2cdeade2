/**
 Both buses together.  They share the buffer region, which every step of a bus reads and writes at absolute
 addresses, and the driver's notification, which carries no bus number.  A run of the system is nevertheless
 a run of each bus on its own.
 */
module System {
  import opened Tokens
  import opened RingBuffer
  import opened Memory
  import opened BusModel
  import opened BusRuns
  import opened Conservation
  import opened Ordering
  import opened Invariant
  import opened BusProperties
  import opened Sharing

  // ---------- The buffer region ----------

  /** Size of the mapping that holds all buffers. */
  const DRIVER_BUFS_SZ := 0x20_0000

  /** Address of the `k`-th buffer: request and return buffers of bus 2, then those of bus 3. */
  function BufferNo(driverBufs: nat, k: nat): nat {
    driverBufs + 512 * k
  }

  /** The 2044 buffers of 512 bytes lie inside the 2 MiB of the mapping and do not overlap. */
  lemma BuffersLaidOut(driverBufs: nat, i: nat, j: nat)
    requires i < 2044 && j < 2044
    ensures BufferNo(driverBufs, i) + 512 <= driverBufs + 0x20_0000 == driverBufs + DRIVER_BUFS_SZ
    ensures i != j ==> BufferNo(driverBufs, i) + 512 <= BufferNo(driverBufs, j) ||
                       BufferNo(driverBufs, j) + 512 <= BufferNo(driverBufs, i)
  {
  }

  /** They are exactly the request and return buffers of the two buses, and each belongs to one pool. */
  lemma BuffersArePools(driverBufs: nat, p: nat)
    ensures (exists k :: 0 <= k < 2044 && p == BufferNo(driverBufs, k)) <==>
      InReq(driverBufs, p) || InRet(driverBufs, p) || InReq(driverBufs + REGION_SZ, p)
        || InRet(driverBufs + REGION_SZ, p)
    ensures !(InReq(driverBufs, p) && InRet(driverBufs, p))
    ensures InReq(driverBufs, p) || InRet(driverBufs, p) ==>
      !InReq(driverBufs + REGION_SZ, p) && !InRet(driverBufs + REGION_SZ, p)
    ensures !(InReq(driverBufs + REGION_SZ, p) && InRet(driverBufs + REGION_SZ, p))
  {
    if k :| 0 <= k < 2044 && p == BufferNo(driverBufs, k) {
      PoolNumber(driverBufs, k);
    }
    if driverBufs <= p < driverBufs + 2 * REGION_SZ && (p - driverBufs) % BUF_SZ == 0 {
      assert p == BufferNo(driverBufs, (p - driverBufs) / BUF_SZ);
    }
  }

  lemma PoolNumber(driverBufs: nat, k: nat)
    requires k < 2044
    ensures var p := BufferNo(driverBufs, k);
      if k < BUF_COUNT then InReq(driverBufs, p)
      else if k < 2 * BUF_COUNT then InRet(driverBufs, p)
      else if k < 3 * BUF_COUNT then InReq(driverBufs + REGION_SZ, p)
      else InRet(driverBufs + REGION_SZ, p)
  {
  }

  // ---------- Two buses on one memory ----------

  datatype BusId = M2 | M3

  function Other(bus: BusId): BusId {
    if bus == M2 then M3 else M2
  }

  /** The buffer region, and what is private to each bus; the private parts hold no memory. */
  datatype Sys = Sys(mem: seq<byte>, m2: World, m3: World)

  function Private(s: Sys, bus: BusId): World {
    if bus == M2 then s.m2 else s.m3
  }

  /** A bus working on the shared memory. */
  function Of(s: Sys, bus: BusId): World {
    var w := Private(s, bus);
    w.(bus := w.bus.(mem := s.mem))
  }

  /** The system after one bus has come to `w`. */
  function After(s: Sys, bus: BusId, w: World): Sys {
    var v := w.(bus := w.bus.(mem := []));
    if bus == M2 then Sys(w.bus.mem, v, s.m3) else Sys(w.bus.mem, s.m2, v)
  }

  /** Bus 3's buffers are behind bus 2's. */
  predicate Placement(s: Sys) {
    && s.m2.bus.origin == s.m3.bus.origin && s.m2.bus.base + REGION_SZ <= s.m3.bus.base
    && s.m2.bus.mem == [] && s.m3.bus.mem == []
  }

  predicate SysShaped(s: Sys) {
    Shaped(Of(s, M2)) && Shaped(Of(s, M3)) && Placement(s)
  }

  /** A bus as if its part of the region were all the memory there is. */
  function Alone(s: Sys, bus: BusId): World
    requires SysShaped(s)
  {
    OwnWorld(Of(s, bus))
  }

  // ---------- Steps ----------

  /** A step of one bus, or a notification of the driver, which checks bus 2 and then bus 3. */
  datatype SysAction = On(bus: BusId, a: Action) | ServerNotify

  /** The system runs on, or the driver is down; `bus` is the one its handler was working for. */
  datatype SysResult =
    | Running(s: Sys)
    | Down(s: Sys, bus: BusId, why: Fault, popped: seq<Desc>)

  function ActOn(s: Sys, bus: BusId, a: Action): (r: SysResult)
    requires SysShaped(s)
    ensures SysShaped(r.s)
  {
    ActOnShaped(s, bus, a);
    hide Shaped;
    var n := Act(Of(s, bus), a);
    if n.Next? then Running(After(s, bus, n.w)) else Down(After(s, bus, n.w), bus, n.why, n.popped)
  }

  lemma ActOnShaped(s: Sys, bus: BusId, a: Action)
    requires SysShaped(s)
    ensures SysShaped(After(s, bus, Act(Of(s, bus), a).w))
  {
    hide Act, Shaped;
    var w := Of(s, bus);
    ActRegion(w, a);
    var t := After(s, bus, Act(w, a).w);
    assert Of(t, bus) == Act(w, a).w;
    var other := Other(bus);
    SameSizeShaped(Of(s, other), Of(t, other));
  }

  lemma ActRegion(w: World, a: Action)
    requires Shaped(w)
    ensures SameRegion(w.bus, Act(w, a).w.bus)
  {
    hide Shaped, Step;
    StepKeepsBase(w, a);
  }

  lemma SameSizeShaped(w: World, v: World)
    requires Shaped(w) && v == w.(bus := w.bus.(mem := v.bus.mem)) && |v.bus.mem| == |w.bus.mem|
    ensures Shaped(v)
  {
  }

  function SysAct(s: Sys, a: SysAction): (r: SysResult)
    requires SysShaped(s)
    ensures SysShaped(r.s)
  {
    hide SysShaped, ActOn;
    match a
    case On(bus, b) => ActOn(s, bus, b)
    case ServerNotify =>
      var n := ActOn(s, M2, Notify);
      if n.Down? then n else ActOn(n.s, M3, Notify)
  }

  function SysRun(s: Sys, acts: seq<SysAction>): (r: SysResult)
    requires SysShaped(s)
    ensures SysShaped(r.s)
    decreases |acts|
  {
    hide SysShaped, SysAct;
    if acts == [] then Running(s) else
    var n := SysAct(s, acts[0]);
    if n.Down? then n else SysRun(n.s, acts[1..])
  }

  // ---------- What one bus sees ----------

  /** What a bus sees of an action. */
  function Seen(a: SysAction, bus: BusId): seq<Action> {
    if a.ServerNotify? then [Notify] else if a.bus == bus then [a.a] else []
  }

  function Project(acts: seq<SysAction>, bus: BusId): seq<Action>
    decreases |acts|
  {
    if acts == [] then [] else Seen(acts[0], bus) + Project(acts[1..], bus)
  }

  /** What a bus sees of an action that takes place in `s`: bus 3 is not checked when checking bus 2 brings
      the driver down. */
  function SeenIn(s: Sys, a: SysAction, bus: BusId): seq<Action>
    requires SysShaped(s)
  {
    if a.ServerNotify? && bus == M3 && ActOn(s, M2, Notify).Down? then [] else Seen(a, bus)
  }

  /** What a bus sees of a run, up to its end. */
  function SeenOf(s: Sys, acts: seq<SysAction>, bus: BusId): seq<Action>
    requires SysShaped(s)
    decreases |acts|
  {
    hide SysShaped, SysAct, SeenIn;
    if acts == [] then [] else
    var n := SysAct(s, acts[0]);
    SeenIn(s, acts[0], bus) + if n.Down? then [] else SeenOf(n.s, acts[1..], bus)
  }

  // ---------- One bus does not disturb the other ----------

  lemma PartElsewhere(m: seq<byte>, n: seq<byte>, lo: nat, k: nat)
    requires |m| == |n| && lo + REGION_SZ <= |m| && k + REGION_SZ <= |m|
    requires k + REGION_SZ <= lo || lo + REGION_SZ <= k
    requires Around(n, lo) == Around(m, lo)
    ensures RegionAt(n, k) == RegionAt(m, k)
  {
    forall j | 0 <= j < REGION_SZ ensures RegionAt(n, k)[j] == RegionAt(m, k)[j] {
      if k + REGION_SZ <= lo {
        assert n[..lo][k + j] == m[..lo][k + j];
      } else {
        assert n[lo + REGION_SZ..][k + j - lo - REGION_SZ] == m[lo + REGION_SZ..][k + j - lo - REGION_SZ];
      }
    }
  }

  /** A step of one bus does on its own part of the region what it does in the system, and leaves the other
      bus's buffers, rings and state alone. */
  lemma StepOfOne(s: Sys, bus: BusId, a: Action)
    requires SysShaped(s)
    ensures var n := ActOn(s, bus, a); var other := Other(bus);
      && Shaped(Alone(s, bus))
      && Act(Alone(s, bus), a) == OwnResult(Act(Of(s, bus), a))
      && Alone(n.s, bus) == Act(Alone(s, bus), a).w
      && Alone(n.s, other) == Alone(s, other)
  {
    hide Step, Shaped, Shape, Around, RegionAt;
    var w := Of(s, bus);
    var other := Other(bus);
    StepOwn(w, a);
    OwnShaped(w);
    var v := Act(w, a).w;
    ActRegion(w, a);
    var n := ActOn(s, bus, a);
    assert Of(n.s, bus) == v;
    MappedOf(s, bus);
    MappedOf(s, other);
    PartElsewhere(s.mem, v.bus.mem, w.bus.base - w.bus.origin, Of(s, other).bus.base - w.bus.origin);
  }

  lemma MappedOf(s: Sys, bus: BusId)
    requires SysShaped(s)
    ensures Mapped(Of(s, bus).bus.origin, Of(s, bus).bus.base, |s.mem|)
  {
    MemSize(Of(s, bus).bus);
  }

  lemma RunOne(w: World, a: Action)
    requires Shaped(w)
    ensures Run(w, [a]) == Act(w, a)
  {
    hide Shaped, Act;
    RunCons(w, a, []);
    assert [a] + [] == [a];
  }

  /** An action of the system, seen from a bus. */
  lemma SeenStep(s: Sys, a: SysAction, bus: BusId)
    requires SysShaped(s)
    ensures Shaped(Alone(s, bus))
    ensures var n := SysAct(s, a); var m := Run(Alone(s, bus), SeenIn(s, a, bus));
      && m.w == Alone(n.s, bus)
      && (m.Crash? <==> n.Down? && n.bus == bus)
      && (m.Crash? ==> m.why == n.why && m.popped == n.popped)
      && (n.Running? ==> SeenIn(s, a, bus) == Seen(a, bus))
  {
    hide SysShaped, Act, Run, Shaped, OwnWorld, Alone, Of, After;
    match a
    case On(c, b) =>
      StepOfOne(s, c, b);
      AloneShaped(s, bus);
      RunOne(Alone(s, c), b);
      RunNothing(Alone(s, bus));
    case ServerNotify =>
      var n := ActOn(s, M2, Notify);
      StepOfOne(s, M2, Notify);
      AloneShaped(s, M3);
      RunOne(Alone(s, M2), Notify);
      RunNothing(Alone(s, M3));
      if n.Running? {
        StepOfOne(n.s, M3, Notify);
        RunOne(Alone(n.s, M3), Notify);
      }
  }

  lemma AloneShaped(s: Sys, bus: BusId)
    requires SysShaped(s)
    ensures Shaped(Alone(s, bus))
  {
    hide Shaped;
    OwnShaped(Of(s, bus));
  }

  // ---------- Independence ----------

  /** Every run of the system, whether it goes on or ends in a crash, is on each bus a run of that bus alone,
      on its own part of the region, of what it sees; the crash is a crash of the bus it belongs to, and the
      other bus has not noticed. */
  lemma {:induction false} BusesIndependent(s: Sys, acts: seq<SysAction>, bus: BusId)
    requires SysShaped(s)
    ensures Shaped(Alone(s, bus))
    ensures var r := SysRun(s, acts); var n := Run(Alone(s, bus), SeenOf(s, acts, bus));
      && n.w == Alone(r.s, bus)
      && (n.Crash? <==> r.Down? && r.bus == bus)
      && (n.Crash? ==> n.why == r.why && n.popped == r.popped)
      && (r.Running? ==> SeenOf(s, acts, bus) == Project(acts, bus))
    decreases |acts|
  {
    hide SysShaped, SysAct, Run, Shaped, SeenIn, Alone;
    AloneShaped(s, bus);
    if acts == [] {
      RunNothing(Alone(s, bus));
    } else {
      var n := SysAct(s, acts[0]);
      var q := SeenIn(s, acts[0], bus);
      SeenStep(s, acts[0], bus);
      if n.Running? {
        BusesIndependent(n.s, acts[1..], bus);
        RunConcat(Alone(s, bus), q, SeenOf(n.s, acts[1..], bus));
      } else {
        assert q + [] == q;
      }
    }
  }

  lemma {:induction false} SeenPrefix(s: Sys, acts: seq<SysAction>, bus: BusId)
    requires SysShaped(s)
    ensures SeenOf(s, acts, bus) <= Project(acts, bus)
    decreases |acts|
  {
    hide SysShaped, SysAct, ActOn;
    if acts != [] {
      var n := SysAct(s, acts[0]);
      if n.Running? {
        SeenPrefix(n.s, acts[1..], bus);
        SeenAll(s, acts[0], bus);
      }
    }
  }

  lemma SeenAll(s: Sys, a: SysAction, bus: BusId)
    requires SysShaped(s) && SysAct(s, a).Running?
    ensures SeenIn(s, a, bus) == Seen(a, bus)
  {
    hide SysShaped, ActOn;
  }

  /** The system runs on exactly as long as both buses would on their own. */
  lemma RunsExactly(s: Sys, acts: seq<SysAction>)
    requires SysShaped(s)
    ensures Shaped(Alone(s, M2)) && Shaped(Alone(s, M3))
    ensures SysRun(s, acts).Running? <==>
      Run(Alone(s, M2), Project(acts, M2)).Next? && Run(Alone(s, M3), Project(acts, M3)).Next?
  {
    hide SysShaped, SysRun, Run, Shaped, SeenOf, Alone, Project;
    RunsOne(s, acts, M2);
    RunsOne(s, acts, M3);
  }

  lemma RunsOne(s: Sys, acts: seq<SysAction>, bus: BusId)
    requires SysShaped(s)
    ensures Shaped(Alone(s, bus))
    ensures var n := Run(Alone(s, bus), Project(acts, bus)); var r := SysRun(s, acts);
      (r.Running? ==> n.Next?) && (r.Down? && r.bus == bus ==> n.Crash?)
  {
    hide SysShaped, SysRun, Run, Shaped, SeenOf, Alone, Project;
    BusesIndependent(s, acts, bus);
    SeenPrefix(s, acts, bus);
    var x, y := SeenOf(s, acts, bus), Project(acts, bus);
    RunConcat(Alone(s, bus), x, y[|x|..]);
    assert x + y[|x|..] == y;
  }

  /** Schedules that look the same to each bus reach the same state of each, however they interleave the
      buses' reads and writes of the shared region. */
  lemma InterleavingIrrelevant(s: Sys, acts: seq<SysAction>, acts': seq<SysAction>)
    requires SysShaped(s)
    requires Project(acts, M2) == Project(acts', M2) && Project(acts, M3) == Project(acts', M3)
    ensures SysRun(s, acts).Running? <==> SysRun(s, acts').Running?
    ensures SysRun(s, acts).Running? ==> forall bus :: Alone(SysRun(s, acts).s, bus) == Alone(SysRun(s, acts').s, bus)
  {
    hide SysShaped, SysRun, Run, Project, Shaped, Alone, SeenOf;
    RunsExactly(s, acts);
    RunsExactly(s, acts');
    if SysRun(s, acts).Running? {
      forall bus: BusId ensures Alone(SysRun(s, acts).s, bus) == Alone(SysRun(s, acts').s, bus) {
        BusesIndependent(s, acts, bus);
        BusesIndependent(s, acts', bus);
        assert bus == M2 || bus == M3;
      }
    }
  }

  /** The two `checkBuf` calls of `serverNotify`, and in the other order. */
  const CHECK_23 := [ServerNotify]
  const CHECK_32 := [On(M3, Notify), On(M2, Notify)]

  /** The two checks commute: if neither bus lacks a return buffer both orders reach the same states.  Otherwise
      either order brings the driver down for want of a return buffer, on the first such bus in that order. */
  lemma ChecksCommute(s: Sys)
    requires SysShaped(s)
    ensures Shape(Of(s, M2).bus) && Shape(Of(s, M3).bus)
    ensures var r, r' := SysRun(s, CHECK_23), SysRun(s, CHECK_32);
      var f2, f3 := CheckBuf(Of(s, M2).bus).Faulted?, CheckBuf(Of(s, M3).bus).Faulted?;
      && (r.Running? <==> !f2 && !f3) && (r'.Running? <==> !f2 && !f3)
      && (r.Running? ==> forall bus :: Alone(r.s, bus) == Alone(r'.s, bus))
      && (r.Down? ==> r.why == NullReturnBuffer && r.bus == if f2 then M2 else M3)
      && (r'.Down? ==> r'.why == NullReturnBuffer && r'.bus == if f3 then M3 else M2)
  {
    hide SysShaped, ActOn, Alone;
    CheckOne(s, M2);
    CheckOne(s, M3);
    SysOne(s, ServerNotify, []);
    SysOne(s, On(M3, Notify), [On(M2, Notify)]);
    var n2, n3 := ActOn(s, M2, Notify), ActOn(s, M3, Notify);
    if n2.Running? {
      CheckOther(s, M2, M3);
    }
    if n3.Running? {
      CheckOther(s, M3, M2);
      SysOne(n3.s, On(M2, Notify), []);
    }
    if n2.Running? && n3.Running? {
      assert Project(CHECK_23, M2) == Project(CHECK_32, M2) == [Notify] by { Checks(); }
      assert Project(CHECK_23, M3) == Project(CHECK_32, M3) == [Notify] by { Checks(); }
      InterleavingIrrelevant(s, CHECK_23, CHECK_32);
    }
  }

  lemma Checks()
    ensures Project(CHECK_23, M2) == Project(CHECK_32, M2) == [Notify]
    ensures Project(CHECK_23, M3) == Project(CHECK_32, M3) == [Notify]
  {
    assert CHECK_23[1..] == [] && CHECK_32[1..] == [On(M2, Notify)] && CHECK_32[1..][1..] == [];
    assert Project([], M2) == Project([], M3) == [];
    assert Project([On(M2, Notify)], M2) == [Notify] && Project([On(M2, Notify)], M3) == [];
  }

  lemma SysOne(s: Sys, a: SysAction, rest: seq<SysAction>)
    requires SysShaped(s)
    ensures SysRun(s, [a] + rest) == var n := SysAct(s, a); if n.Down? then n else SysRun(n.s, rest)
    ensures rest == [] ==> [a] + rest == [a] && SysRun(s, [a]) == SysAct(s, a)
  {
    hide SysShaped, SysAct;
    assert ([a] + rest)[1..] == rest;
    if rest == [] {
      assert [a] + rest == [a];
    }
  }

  /** A check of a bus faults exactly when `checkBuf` does. */
  lemma CheckOne(s: Sys, bus: BusId)
    requires SysShaped(s)
    ensures Shape(Of(s, bus).bus)
    ensures ActOn(s, bus, Notify).Down? <==> CheckBuf(Of(s, bus).bus).Faulted?
    ensures var n := ActOn(s, bus, Notify); n.Down? ==> n.bus == bus && n.why == NullReturnBuffer
  {
    hide LoadTokens, Accept, Shape;
  }

  /** Checking one bus does not change whether the other one's check faults. */
  lemma CheckOther(s: Sys, bus: BusId, other: BusId)
    requires SysShaped(s) && bus != other
    ensures ActOn(ActOn(s, bus, Notify).s, other, Notify).Down? <==> ActOn(s, other, Notify).Down?
    ensures var n := ActOn(ActOn(s, bus, Notify).s, other, Notify);
      n.Down? ==> n.bus == other && n.why == NullReturnBuffer
  {
    hide SysShaped, Act, Alone, Of;
    var t := ActOn(s, bus, Notify).s;
    StepOfOne(s, bus, Notify);
    StepOfOne(s, other, Notify);
    StepOfOne(t, other, Notify);
    CheckOne(t, other);
  }

  // ---------- The whole system ----------

  /** After initialisation: the region begins with bus 2's buffers, and bus 3's follow. */
  predicate SysInitial(s: Sys) {
    && Initial(Of(s, M2)) && Initial(Of(s, M3)) && |s.mem| == DRIVER_BUFS_SZ
    && s.m2.bus.origin == s.m3.bus.origin == s.m2.bus.base && s.m3.bus.base == s.m2.bus.base + REGION_SZ
    && s.m2.bus.mem == [] && s.m3.bus.mem == []
  }

  /** At first the free rings hold the 2044 buffers in order: the requests of bus 2 are the first 511, then come its
      return buffers, then the requests of bus 3, and its return buffers.  Nothing is queued. */
  lemma BuffersAtFirst(s: Sys, j: nat)
    requires SysInitial(s) && j < 511
    ensures var r2, r3, first := Of(s, M2).bus.rings, Of(s, M3).bus.rings, s.m2.bus.base;
      && |r2.reqFree| == |r2.retFree| == |r3.reqFree| == |r3.retFree| == 511
      && r2.reqFree[j] == Desc(first + 512 * j, 512) && r2.retFree[j] == Desc(first + 512 * (511 + j), 512)
      && r3.reqFree[j] == Desc(first + 512 * (1022 + j), 512) && r3.retFree[j] == Desc(first + 512 * (1533 + j), 512)
      && r2.reqUsed == r2.retUsed == r3.reqUsed == r3.retUsed == []
  {
    hide Pool;
  }

  lemma SysInitialShaped(s: Sys)
    requires SysInitial(s)
    ensures SysShaped(s) && Initial(Alone(s, M2)) && Initial(Alone(s, M3))
    ensures Alone(s, M2).bus.base == s.m2.bus.base && Alone(s, M3).bus.base == s.m2.bus.base + REGION_SZ
  {
    InitialInv(Of(s, M2));
    InitialInv(Of(s, M3));
    hide Kept;
  }

  /** Where a run of the system stands on a bus: at `s`, a crashed driver having popped `popped` there. */
  predicate SysStandsAt(s0: Sys, acts: seq<SysAction>, s: Sys, bus: BusId, popped: seq<Desc>) {
    SysInitial(s0) && (SysInitialShaped(s0);
      var r := SysRun(s0, acts);
      r.s == s && popped == if r.Down? && r.bus == bus then r.popped else [])
  }

  /** Where the system stands each bus stands on its own. */
  lemma SysStandsBus(s0: Sys, acts: seq<SysAction>, s: Sys, bus: BusId, popped: seq<Desc>)
    requires SysStandsAt(s0, acts, s, bus, popped)
    ensures SysShaped(s0) && SysShaped(s)
    ensures StandsAt(Alone(s0, bus), SeenOf(s0, acts, bus), Alone(s, bus), popped)
  {
    hide Kept, Shaped, SysRun, Run, SeenOf, Initial, Alone, SysShaped;
    SysInitialShaped(s0);
    InitialInv(Alone(s0, bus));
    BusesIndependent(s0, acts, bus);
  }

  /** What a bus holds in the system it holds on its own. */
  lemma SameAlone(s: Sys, bus: BusId)
    requires SysShaped(s)
    ensures var w, v := Of(s, bus), Alone(s, bus);
      && Shape(w.bus) && Shape(v.bus)
      && v == w.(bus := w.bus.(origin := v.bus.origin, mem := v.bus.mem))
      && Current(v.bus) == Current(w.bus) && Waiting(v.bus) == Waiting(w.bus) && Returned(v.bus) == Returned(w.bus)
  {
    var w := Of(s, bus);
    OwnShaped(w);
    OwnCurrent(w.bus);
    OwnQueues(w.bus);
  }

  lemma OwnQueues(b: Bus)
    requires Shape(b)
    ensures Mapped(b.origin, b.base, |b.mem|) && Shape(Own(b))
    ensures Waiting(Own(b)) == Waiting(b) && Returned(Own(b)) == Returned(b)
  {
    OwnShape(b);
    hide RequestAt, HeaderAt, Part;
    forall i | 0 <= i < |b.rings.reqUsed| ensures Waiting(Own(b))[i] == Waiting(b)[i] {
      assert b.rings.reqUsed[i] in b.rings.reqUsed;
      OwnRequest(b, b.rings.reqUsed[i]);
    }
    forall i | 0 <= i < |b.rings.retUsed| ensures Returned(Own(b))[i] == Returned(b)[i] {
      assert b.rings.retUsed[i] in b.rings.retUsed;
      OwnHeader(b, b.rings.retUsed[i]);
    }
  }

  /** Wherever a run of the system stands, also after a crash, each of the 2044 buffers is in exactly one
      place of all the rings and hands of both buses, and no other address is anywhere. */
  lemma EveryBufferOnce(s0: Sys, acts: seq<SysAction>, s: Sys, popped2: seq<Desc>, popped3: seq<Desc>, p: nat)
    requires SysStandsAt(s0, acts, s, M2, popped2) && SysStandsAt(s0, acts, s, M3, popped3)
    ensures (ReqBag(s.m2) + Bag(popped2) + RetBag(s.m2) + ReqBag(s.m3) + Bag(popped3) + RetBag(s.m3))[p] ==
      if exists k :: 0 <= k < 2044 && p == BufferNo(s0.m2.bus.base, k) then 1 else 0
  {
    hide SysRun, Run, SeenOf, Initial, SysShaped, StandsAt, Kept, Bag, ReqBag, RetBag, Shape, Shaped, Current, Waiting,
      Returned, InReq, InRet;
    SysInitialShaped(s0);
    SysStandsBus(s0, acts, s, M2, popped2);
    SysStandsBus(s0, acts, s, M3, popped3);
    EachBufferOnce(Alone(s0, M2), SeenOf(s0, acts, M2), Alone(s, M2), popped2, p);
    EachBufferOnce(Alone(s0, M3), SeenOf(s0, acts, M3), Alone(s, M3), popped3, p);
    SameAlone(s, M2);
    SameAlone(s, M3);
    SameBags(s, M2);
    SameBags(s, M3);
    BuffersArePools(s0.m2.bus.base, p);
  }

  lemma SameBags(s: Sys, bus: BusId)
    requires SysShaped(s)
    ensures ReqBag(Alone(s, bus)) == ReqBag(Private(s, bus)) && RetBag(Alone(s, bus)) == RetBag(Private(s, bus))
  {
    hide Bag, Shape;
  }

  /** Wherever a run of the system stands, also after a crash, on each bus every request is finished, in
      progress, popped by the crashed driver or queued, once and in the order of submission, and every finished
      one is handed back or waiting to be. */
  lemma EveryRequestOnce(s0: Sys, acts: seq<SysAction>, s: Sys, bus: BusId, popped: seq<Desc>)
    requires SysStandsAt(s0, acts, s, bus, popped)
    ensures SysShaped(s)
    ensures var w := Of(s, bus);
      && (forall d <- popped :: InReq(w.bus.base, d.addr) && 2 <= d.len <= BUF_SZ)
      && w.past.submitted ==
         Requests(w.past.done) + Current(w.bus) + Popped(w.bus, popped) + Waiting(w.bus)
      && Headers(w.past.done) == w.past.collected + Returned(w.bus)
  {
    hide SysRun, Run, SeenOf, Initial, StandsAt, Kept, Current, Waiting, Returned, Requests, Headers, RequestAt, Shape;
    SysStandsBus(s0, acts, s, bus, popped);
    ExactlyOnceInOrder(Alone(s0, bus), SeenOf(s0, acts, bus), Alone(s, bus), popped);
    SameAlone(s, bus);
    OwnPopped(Of(s, bus).bus, popped);
  }

  lemma OwnPopped(b: Bus, popped: seq<Desc>)
    requires Shape(b) && forall d <- popped :: InReq(b.base, d.addr) && 2 <= d.len <= BUF_SZ
    ensures Mapped(b.origin, b.base, |b.mem|) && Shape(Own(b)) && Popped(Own(b), popped) == Popped(b, popped)
  {
    OwnShape(b);
    hide RequestAt, Part;
    forall i | 0 <= i < |popped| ensures Popped(Own(b), popped)[i] == Popped(b, popped)[i] {
      OwnRequest(b, popped[i]);
    }
  }
}
