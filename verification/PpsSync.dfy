/** Pulse-per-second time synchronisation: the kernel's timestamp of the last pulse, and
    the boot time at which user space read it. A kernel that stamps in wall-clock time has
    its stamp moved to boot time by the offset between the two clocks, unless that offset
    has jumped. Pulses right after the first one, and after an outage, are ignored.

    The floating-point milliseconds of the C code are exact nanoseconds here. */
module PpsSync {
  const BILLION_NSEC: int := 1_000_000_000
  const MAX_REALTIME_OFFSET_DELTA_DIFFERENCE: int := 10_000_000
  const MAX_PPS_KERNEL_TO_USERSPACE_LATENCY: int := 100_000_000

  datatype Timespec = Timespec(sec: int, nsec: int) {
    ghost function Ns(): int {
      sec * BILLION_NSEC + nsec
    }

    ghost predicate Normal() {
      0 <= nsec < BILLION_NSEC
    }
  }

  const ZERO := Timespec(0, 0)

  function Abs(x: int): nat {
    if x < 0 then -x else x
  }

  /** calculate_time_difference: time2 - time1 */
  function TimeDifference(time1: Timespec, time2: Timespec): (d: Timespec)
    ensures d.Ns() == time2.Ns() - time1.Ns()
    ensures time1.Normal() && time2.Normal() ==> d.Normal()
  {
    if time2.nsec < time1.nsec
    then Timespec(time2.sec - 1 - time1.sec, BILLION_NSEC + time2.nsec - time1.nsec)
    else Timespec(time2.sec - time1.sec, time2.nsec - time1.nsec)
  }

  /** pps_sync_time_add */
  function TimeAdd(time1: Timespec, time2: Timespec): (t: Timespec)
    ensures t.Ns() == time1.Ns() + time2.Ns()
    ensures time1.Normal() && time2.Normal() ==> t.Normal()
  {
    if time2.nsec + time1.nsec >= BILLION_NSEC
    then Timespec(time2.sec + time1.sec + 1, time2.nsec + time1.nsec - BILLION_NSEC)
    else Timespec(time2.sec + time1.sec, time2.nsec + time1.nsec)
  }

  /** convertTimeToMilliSec, in nanoseconds: the thousandth of a second and the millionth
      of a millisecond are the same unit. */
  function ToNs(t: Timespec): (ns: int)
    ensures ns == t.Ns()
  {
    t.sec * 1000 * 1_000_000 + t.nsec
  }

  predicate IsTimeOffsetOk(offsetTime: Timespec) {
    Abs(ToNs(offsetTime)) <= MAX_REALTIME_OFFSET_DELTA_DIFFERENCE
  }

  datatype ClockType = BootTime | RealTime | Unknown

  /** get_reported_time_type */
  function ReportedTimeType(userBootTs: Timespec, userRealTs: Timespec, kernelTs: Timespec): ClockType {
    if Abs(ToNs(userBootTs) - ToNs(kernelTs)) <= MAX_PPS_KERNEL_TO_USERSPACE_LATENCY then BootTime
    else if Abs(ToNs(userRealTs) - ToNs(kernelTs)) <= MAX_PPS_KERNEL_TO_USERSPACE_LATENCY then RealTime
    else Unknown
  }

  /** Ns counts nanoseconds, and a normalised timestamp has less than a second of them. */
  lemma NsIs(t: Timespec)
    ensures t.Ns() == t.sec * 1_000_000_000 + t.nsec
    ensures t.Normal() <==> 0 <= t.nsec <= 999_999_999
  {
  }

  /** Two normalised timestamps of the same instant are the same. */
  lemma NormalIsUnique(a: Timespec, b: Timespec)
    requires a.Normal() && b.Normal() && a.Ns() == b.Ns()
    ensures a == b
  {
    assert (a.sec - b.sec) * BILLION_NSEC == b.nsec - a.nsec;
    assert -1 < a.sec - b.sec < 1;
  }

  /** Moving a timestamp by the difference of two clocks and back changes nothing. */
  lemma ThereAndBack(t: Timespec, realTs: Timespec, bootTs: Timespec)
    requires t.Normal() && realTs.Normal() && bootTs.Normal()
    ensures TimeAdd(t, TimeDifference(realTs, bootTs)).Ns() == t.Ns() + bootTs.Ns() - realTs.Ns()
    ensures TimeAdd(TimeAdd(t, TimeDifference(realTs, bootTs)), TimeDifference(bootTs, realTs)) == t
    ensures TimeAdd(realTs, TimeDifference(realTs, bootTs)) == bootTs
  {
    NormalIsUnique(TimeAdd(TimeAdd(t, TimeDifference(realTs, bootTs)), TimeDifference(bootTs, realTs)), t);
    NormalIsUnique(TimeAdd(realTs, TimeDifference(realTs, bootTs)), bootTs);
  }

  // -------------------------------------------------------------- the program

  /** IGNORE_PPS_PULSE_COUNT and GNSS_OUTAGE_DURATION */
  datatype Config = Config(skipPPSPulseCnt: int, gnssOutageInSec: int)

  /** The static variables of the file. */
  datatype Pps = Pps(
    kernelTs: Timespec,
    userTs: Timespec,
    prevKernelTs: Timespec,
    firstReceived: bool,
    skipPulseCnt: nat,
    offset: Timespec)

  const START := Pps(ZERO, ZERO, ZERO, false, 0, ZERO)

  /** A clock, or that it cannot be read. */
  datatype Reading = Reading(ok: bool, time: Timespec)

  /** What the environment answers in one round of read_pps. fetched: pps_fetch returned a
      timestamp, or was interrupted by a signal, which read_pps takes for the same. */
  datatype Pulse = Pulse(fetched: bool, info: Timespec, boot: Reading, wall: Reading)

  /** compute_real_to_boot_time; the second result is its return value. */
  function Compute(s: Pps, p: Pulse): (Pps, int) {
    if !p.boot.ok || !p.wall.ok then (s, -1)
    else
      match ReportedTimeType(p.boot.time, p.wall.time, p.info)
      case BootTime => (s.(kernelTs := p.info, userTs := p.boot.time), 0)
      case RealTime => ComputeFromWall(s, p)
      case Unknown => (s, -1)
  }

  /** Its branch for wall-clock time. */
  function ComputeFromWall(s: Pps, p: Pulse): (Pps, int) {
    var delta := TimeDifference(p.wall.time, p.boot.time);
    if s.offset == ZERO || IsTimeOffsetOk(TimeDifference(s.offset, delta))
    then (s.(kernelTs := TimeAdd(p.info, delta), userTs := p.boot.time, offset := delta), 0)
    else (s.(offset := delta), -1)
  }

  /** Whether a pulse starts the count of ignored pulses over. */
  predicate StartsOver(c: Config, s: Pps, info: Timespec) {
    c.skipPPSPulseCnt > 0
    && (!s.firstReceived || info.sec - s.prevKernelTs.sec > c.gnssOutageInSec)
  }

  /** read_pps after a successful fetch, up to the test of skipPulseCnt */
  function Note(c: Config, s: Pps, info: Timespec): Pps {
    if StartsOver(c, s, info)
    then s.(skipPulseCnt := c.skipPPSPulseCnt, firstReceived := true, prevKernelTs := info)
    else s.(prevKernelTs := info)
  }

  function ReadPps(c: Config, s: Pps, p: Pulse): Pps {
    if !p.fetched then s
    else
      var noted := Note(c, s, p.info);
      if noted.skipPulseCnt > 0 then noted.(skipPulseCnt := noted.skipPulseCnt - 1)
      else Compute(noted, p).0
  }

  /** The variables after the first n rounds of thread_handle. */
  function After(c: Config, ps: seq<Pulse>, n: nat): Pps
    requires n <= |ps|
  {
    if n == 0 then START else ReadPps(c, After(c, ps, n - 1), ps[n - 1])
  }

  /** The three timestamps that getPPS writes through its pointers. */
  datatype Snapshot = Snapshot(fineKernelTs: Timespec, currentTs: Timespec, fineUserTs: Timespec)

  class GnssPps {
    const config: Config
    var isActive: bool
    var drsyncKernelTs: Timespec
    var drsyncUserTs: Timespec
    var prevDrsyncKernelTs: Timespec
    var timeOffset: Timespec
    var isFirstPulseReceived: bool
    var skipPulseCnt: nat

    ghost function Statics(): Pps
      reads this
    {
      Pps(drsyncKernelTs, drsyncUserTs, prevDrsyncKernelTs, isFirstPulseReceived, skipPulseCnt, timeOffset)
    }

    constructor (config: Config)
      ensures this.config == config && !isActive && Statics() == START
    {
      this.config := config;
      isActive, isFirstPulseReceived, skipPulseCnt := false, false, 0;
      drsyncKernelTs, drsyncUserTs, prevDrsyncKernelTs, timeOffset := ZERO, ZERO, ZERO, ZERO;
    }

    method ComputeRealToBootTime(p: Pulse) returns (retVal: int)
      modifies this`drsyncKernelTs, this`drsyncUserTs, this`timeOffset
      ensures (Statics(), retVal) == Compute(old(Statics()), p)
    {
      if !p.boot.ok {
        return -1;
      }
      if !p.wall.ok {
        return -1;
      }
      var ppsTimeType := ReportedTimeType(p.boot.time, p.wall.time, p.info);
      if ppsTimeType == BootTime {
        drsyncKernelTs := p.info;
        drsyncUserTs := p.boot.time;
        retVal := 0;
      } else if ppsTimeType == RealTime {
        retVal := ConvertToBootTime(p);
      } else {
        retVal := -1;
      }
    }

    /** The branch for wall-clock time. */
    method ConvertToBootTime(p: Pulse) returns (retVal: int)
      modifies this`drsyncKernelTs, this`drsyncUserTs, this`timeOffset
      ensures (Statics(), retVal) == ComputeFromWall(old(Statics()), p)
    {
      var deltaRealToBootTime := TimeDifference(p.wall.time, p.boot.time);
      var deltaOffsetTime := TimeDifference(timeOffset, deltaRealToBootTime);
      if (timeOffset.sec == 0 && timeOffset.nsec == 0) || IsTimeOffsetOk(deltaOffsetTime) {
        drsyncUserTs := p.boot.time;
        drsyncKernelTs := TimeAdd(p.info, deltaRealToBootTime);
        retVal := 0;
      } else {
        retVal := -1;
      }
      timeOffset := deltaRealToBootTime;
    }

    /** read_pps. Its result does not tell whether the pulse was published. */
    method Read(p: Pulse) returns (ret: int)
      modifies this`drsyncKernelTs, this`drsyncUserTs, this`timeOffset,
               this`prevDrsyncKernelTs, this`isFirstPulseReceived, this`skipPulseCnt
      ensures Statics() == ReadPps(config, old(Statics()), p)
      ensures ret == if p.fetched then 0 else -1
    {
      if !p.fetched {
        return -1;
      }
      if !isFirstPulseReceived && config.skipPPSPulseCnt > 0 {
        skipPulseCnt := config.skipPPSPulseCnt;
        isFirstPulseReceived := true;
      } else if isFirstPulseReceived && config.skipPPSPulseCnt > 0
                && p.info.sec - prevDrsyncKernelTs.sec > config.gnssOutageInSec {
        skipPulseCnt := config.skipPPSPulseCnt;
      }
      prevDrsyncKernelTs := p.info;
      if skipPulseCnt > 0 {
        skipPulseCnt := skipPulseCnt - 1;
        return 0;
      }
      var _ := ComputeRealToBootTime(p);
      return 0;
    }

    /** getPPS. given is what the caller's variables hold before, now the boot clock. It
        reports success without writing anything while no thread reads pulses. */
    method GetPPS(given: Snapshot, now: Reading) returns (ret: int, out: Snapshot)
      ensures !isActive ==> ret == 1 && out == given
      ensures isActive ==> out.fineKernelTs == drsyncKernelTs && out.fineUserTs == drsyncUserTs
      ensures isActive ==> (ret == 1 <==> now.ok) && (ret == 0 || ret == 1)
      ensures isActive && now.ok ==> out.currentTs == now.time
    {
      out := given;
      ret := 1;
      if isActive {
        out := out.(fineKernelTs := drsyncKernelTs, fineUserTs := drsyncUserTs);
        if now.ok {
          out := out.(currentTs := now.time);
        } else {
          ret := 0;
        }
      }
    }

    /** The loop of the thread, over the pulses that the environment sends. */
    method ReadAll(ps: seq<Pulse>)
      requires Statics() == START
      modifies this`drsyncKernelTs, this`drsyncUserTs, this`timeOffset,
               this`prevDrsyncKernelTs, this`isFirstPulseReceived, this`skipPulseCnt
      ensures Statics() == After(config, ps, |ps|)
    {
      for n := 0 to |ps|
        invariant Statics() == After(config, ps, n)
      {
        var _ := Read(ps[n]);
      }
    }
  }

  // --------------------------------------------- what a history says by itself

  /** The rounds that fetched a pulse. */
  function Fetched(ps: seq<Pulse>): (qs: seq<Pulse>)
    ensures |qs| <= |ps| && forall k :: 0 <= k < |qs| ==> qs[k].fetched && qs[k] in ps
  {
    if ps == [] then []
    else Fetched(ps[..|ps| - 1]) + if ps[|ps| - 1].fetched then [ps[|ps| - 1]] else []
  }

  ghost predicate AllFetched(ps: seq<Pulse>) {
    forall k :: 0 <= k < |ps| ==> ps[k].fetched
  }

  /** Pulse k is the first one, or follows an outage. */
  predicate Restarts(c: Config, ps: seq<Pulse>, k: nat)
    requires k < |ps|
  {
    k == 0 || ps[k].info.sec - ps[k - 1].info.sec > c.gnssOutageInSec
  }

  /** None of the last skipPPSPulseCnt pulses up to and with pulse k restarts the count. */
  ghost predicate Counts(c: Config, ps: seq<Pulse>, k: nat)
    requires k < |ps|
  {
    forall j :: 0 <= j <= k && k - j < c.skipPPSPulseCnt ==> !Restarts(c, ps, j)
  }

  // The clock of a pulse, by the distances in nanoseconds: the contracts name the limits and
  // do not use the constants and tests of the program.

  /** The kernel stamped at most 100 ms from the boot time at which the pulse was read. */
  ghost predicate NearBoot(p: Pulse) {
    p.boot.ok && p.wall.ok && -100_000_000 <= p.boot.time.Ns() - p.info.Ns() <= 100_000_000
  }

  /** The kernel did not, but stamped at most 100 ms from the wall clock. */
  ghost predicate NearWall(p: Pulse) {
    && p.boot.ok && p.wall.ok && !NearBoot(p)
    && -100_000_000 <= p.wall.time.Ns() - p.info.Ns() <= 100_000_000
  }

  lemma ClockTypeIs(p: Pulse)
    requires p.boot.ok && p.wall.ok
    ensures var k := ReportedTimeType(p.boot.time, p.wall.time, p.info);
            && (k == BootTime <==> NearBoot(p))
            && (k == RealTime <==> NearWall(p))
  {
  }

  /** Boot time minus wall-clock time, in nanoseconds. */
  ghost function OffsetNs(p: Pulse): int {
    p.boot.time.Ns() - p.wall.time.Ns()
  }

  ghost predicate Wall(c: Config, ps: seq<Pulse>, k: nat)
    requires k < |ps|
  {
    Counts(c, ps, k) && NearWall(ps[k])
  }

  /** The last pulse in wall-clock time among the first n, or -1. */
  ghost function LastWall(c: Config, ps: seq<Pulse>, n: nat): (l: int)
    requires n <= |ps|
    ensures -1 <= l < n && (l >= 0 ==> Wall(c, ps, l))
  {
    if n == 0 then -1 else if Wall(c, ps, n - 1) then n - 1 else LastWall(c, ps, n - 1)
  }

  /** The offset at pulse k is within 10 ms of the one at the last pulse in wall-clock time
      before it, if there was one. */
  ghost predicate NoJump(c: Config, ps: seq<Pulse>, k: nat)
    requires k < |ps|
  {
    var l := LastWall(c, ps, k);
    l >= 0 ==> -10_000_000 <= OffsetNs(ps[k]) - OffsetNs(ps[l]) <= 10_000_000
  }

  ghost predicate Published(c: Config, ps: seq<Pulse>, k: nat)
    requires k < |ps|
  {
    Counts(c, ps, k) && (NearBoot(ps[k]) || (NearWall(ps[k]) && NoJump(c, ps, k)))
  }

  /** The last published pulse among the first n, or -1. */
  ghost function LastPublished(c: Config, ps: seq<Pulse>, n: nat): (l: int)
    requires n <= |ps|
    ensures -1 <= l < n && (l >= 0 ==> Published(c, ps, l))
  {
    if n == 0 then -1 else if Published(c, ps, n - 1) then n - 1 else LastPublished(c, ps, n - 1)
  }

  lemma {:induction false} NoneLater(c: Config, ps: seq<Pulse>, n: nat, k: nat)
    requires k < n <= |ps|
    ensures Wall(c, ps, k) ==> k <= LastWall(c, ps, n)
    ensures Published(c, ps, k) ==> k <= LastPublished(c, ps, n)
  {
    if k < n - 1 {
      NoneLater(c, ps, n - 1, k);
    }
  }

  ghost predicate ClocksNormal(ps: seq<Pulse>) {
    forall k :: 0 <= k < |ps| ==> ps[k].info.Normal() && ps[k].boot.time.Normal() && ps[k].wall.time.Normal()
  }

  /** kernelTs and userTs as they come from pulse p: the boot time read at the pulse, and
      the kernel's stamp moved to boot time. */
  ghost predicate From(p: Pulse, kernelTs: Timespec, userTs: Timespec) {
    && userTs == p.boot.time
    && kernelTs.Normal()
    && kernelTs.Ns() == p.info.Ns() + if NearBoot(p) then 0 else OffsetNs(p)
  }

  // ------------------------------------------------------------- pulse skipping

  /** The last pulse among the first n that restarts the count. */
  ghost function LastRestart(c: Config, ps: seq<Pulse>, n: nat): (r: nat)
    requires 0 < n <= |ps|
    ensures r < n && Restarts(c, ps, r) && forall j :: r < j < n ==> !Restarts(c, ps, j)
  {
    if Restarts(c, ps, n - 1) then n - 1 else LastRestart(c, ps, n - 1)
  }

  lemma {:induction false} CountAfter(c: Config, ps: seq<Pulse>, n: nat)
    requires AllFetched(ps) && n <= |ps|
    ensures var s := After(c, ps, n);
            && (s.firstReceived <==> n > 0 && c.skipPPSPulseCnt > 0)
            && (n > 0 ==> s.prevKernelTs == ps[n - 1].info)
            && var left := if n == 0 then 0 else c.skipPPSPulseCnt - (n - LastRestart(c, ps, n));
               s.skipPulseCnt == if left > 0 then left else 0
  {
    if n > 0 {
      CountAfter(c, ps, n - 1);
      assert Restarts(c, ps, n - 1) && c.skipPPSPulseCnt > 0 <==> StartsOver(c, After(c, ps, n - 1), ps[n - 1].info);
    }
  }

  /** Pulse k reaches compute_real_to_boot_time exactly when none of the last
      skipPPSPulseCnt pulses, k included, is the first one or follows an outage. */
  lemma PulseReachesCompute(c: Config, ps: seq<Pulse>, k: nat)
    requires AllFetched(ps) && k < |ps|
    ensures Note(c, After(c, ps, k), ps[k].info).skipPulseCnt == 0 <==> Counts(c, ps, k)
  {
    CountAfter(c, ps, k);
    CountAfter(c, ps, k + 1);
    var r := LastRestart(c, ps, k + 1);
    if k - r < c.skipPPSPulseCnt {
      assert Restarts(c, ps, r);
    }
  }

  /** Rounds without a pulse change nothing. */
  lemma {:induction false} FailuresDoNotMatter(c: Config, ps: seq<Pulse>)
    ensures After(c, ps, |ps|) == After(c, Fetched(ps), |Fetched(ps)|)
  {
    if ps != [] {
      var front := ps[..|ps| - 1];
      FailuresDoNotMatter(c, front);
      AfterPrefix(c, front, ps, |front|);
      AfterPrefix(c, Fetched(front), Fetched(ps), |Fetched(front)|);
    }
  }

  lemma {:induction false} AfterPrefix(c: Config, ps: seq<Pulse>, qs: seq<Pulse>, n: nat)
    requires ps <= qs && n <= |ps|
    ensures After(c, ps, n) == After(c, qs, n)
  {
    if n > 0 {
      AfterPrefix(c, ps, qs, n - 1);
    }
  }

  // ------------------------------------------------------------ what is published

  /** The stored offset is that of the last pulse in wall-clock time, or unset. */
  lemma {:induction false} OffsetAfter(c: Config, ps: seq<Pulse>, n: nat)
    requires AllFetched(ps) && n <= |ps|
    ensures var l := LastWall(c, ps, n);
            After(c, ps, n).offset == if l < 0 then ZERO else TimeDifference(ps[l].wall.time, ps[l].boot.time)
  {
    if n > 0 {
      OffsetAfter(c, ps, n - 1);
      PulseReachesCompute(c, ps, n - 1);
      if ps[n - 1].boot.ok && ps[n - 1].wall.ok {
        ClockTypeIs(ps[n - 1]);
      }
    }
  }

  /** The code takes the stored offset zero for no offset. No pulse can store it: were the
      two clocks equal, the kernel's stamp would have been taken for boot time. */
  lemma ZeroIsNoOffset(p: Pulse)
    requires NearWall(p)
    ensures OffsetNs(p) != 0 && TimeDifference(p.wall.time, p.boot.time) != ZERO
  {
  }

  /** The test that the code makes is the test for a jump. */
  lemma OffsetTest(c: Config, ps: seq<Pulse>, n: nat)
    requires AllFetched(ps) && ClocksNormal(ps) && n < |ps|
    ensures var s := After(c, ps, n);
            var delta := TimeDifference(ps[n].wall.time, ps[n].boot.time);
            NoJump(c, ps, n) <==> s.offset == ZERO || IsTimeOffsetOk(TimeDifference(s.offset, delta))
  {
    OffsetAfter(c, ps, n);
    var l := LastWall(c, ps, n);
    if l >= 0 {
      ZeroIsNoOffset(ps[l]);
    }
  }

  /** A pulse is published exactly when its own data and the history say so, and nothing
      but a published pulse changes the two timestamps. */
  lemma ReadPublishes(c: Config, ps: seq<Pulse>, n: nat)
    requires AllFetched(ps) && ClocksNormal(ps) && n < |ps|
    ensures var s, s' := After(c, ps, n), After(c, ps, n + 1);
            if Published(c, ps, n) then From(ps[n], s'.kernelTs, s'.userTs)
            else s'.kernelTs == s.kernelTs && s'.userTs == s.userTs
  {
    PulseReachesCompute(c, ps, n);
    OffsetTest(c, ps, n);
    if ps[n].boot.ok && ps[n].wall.ok {
      ClockTypeIs(ps[n]);
    }
  }

  /** At any time the two timestamps come from one and the same pulse, the last published
      one; before the first they are zero. */
  lemma {:induction false} SnapshotIsLastPublished(c: Config, ps: seq<Pulse>, n: nat)
    requires AllFetched(ps) && ClocksNormal(ps) && n <= |ps|
    ensures var s, l := After(c, ps, n), LastPublished(c, ps, n);
            if l < 0 then s.kernelTs == ZERO && s.userTs == ZERO else From(ps[l], s.kernelTs, s.userTs)
  {
    if n > 0 {
      SnapshotIsLastPublished(c, ps, n - 1);
      ReadPublishes(c, ps, n - 1);
    }
  }

  /** The two timestamps of a published pulse are at most 100 ms apart, whichever clock the
      kernel used. */
  lemma PairIsClose(c: Config, ps: seq<Pulse>, k: nat, kernelTs: Timespec, userTs: Timespec)
    requires k < |ps| && Published(c, ps, k) && From(ps[k], kernelTs, userTs)
    ensures -100_000_000 <= userTs.Ns() - kernelTs.Ns() <= 100_000_000
  {
  }

  /** The pair that getPPS can hand out after any rounds: normalised, at most 100 ms apart,
      and that of the last published pulse, or zero before the first. */
  lemma EverySnapshot(c: Config, ps: seq<Pulse>)
    requires ClocksNormal(ps)
    ensures var s, qs := After(c, ps, |ps|), Fetched(ps); var l := LastPublished(c, qs, |qs|);
            && s.kernelTs.Normal() && s.userTs.Normal()
            && -100_000_000 <= s.userTs.Ns() - s.kernelTs.Ns() <= 100_000_000
            && if l < 0 then s.kernelTs == ZERO && s.userTs == ZERO else From(qs[l], s.kernelTs, s.userTs)
  {
    var qs := Fetched(ps);
    FailuresDoNotMatter(c, ps);
    assert ClocksNormal(qs);
    SnapshotIsLastPublished(c, qs, |qs|);
    var s, l := After(c, qs, |qs|), LastPublished(c, qs, |qs|);
    if l >= 0 {
      PairIsClose(c, qs, l, s.kernelTs, s.userTs);
      assert s.userTs.Normal();
    } else {
      assert ZERO.Normal() && ZERO.Ns() == 0;
    }
  }

  /** A jump of the wall clock costs one pulse: when the new offset has settled, the next
      pulse in wall-clock time is stored, whatever happened to the one before. */
  lemma ResyncAfterJump(c: Config, ps: seq<Pulse>, k: nat)
    requires AllFetched(ps) && ClocksNormal(ps) && k + 1 < |ps|
    requires Wall(c, ps, k) && Wall(c, ps, k + 1)
    requires -10_000_000 <= OffsetNs(ps[k + 1]) - OffsetNs(ps[k]) <= 10_000_000
    ensures var s := After(c, ps, k + 2);
            s.userTs == ps[k + 1].boot.time && s.kernelTs.Normal()
            && s.kernelTs.Ns() == ps[k + 1].info.Ns() + OffsetNs(ps[k + 1])
  {
    ReadPublishes(c, ps, k + 1);
  }

  /** With offsets more than 10 ms apart the pair stays as it was before the pulse. */
  lemma JumpIsSkipped(c: Config, ps: seq<Pulse>, k: nat)
    requires AllFetched(ps) && ClocksNormal(ps) && k + 1 < |ps|
    requires Wall(c, ps, k) && Wall(c, ps, k + 1)
    requires !(-10_000_000 <= OffsetNs(ps[k + 1]) - OffsetNs(ps[k]) <= 10_000_000)
    ensures After(c, ps, k + 2).kernelTs == After(c, ps, k + 1).kernelTs
    ensures After(c, ps, k + 2).userTs == After(c, ps, k + 1).userTs
  {
    ReadPublishes(c, ps, k + 1);
  }
}
