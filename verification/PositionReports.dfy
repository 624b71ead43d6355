/** What a client of the daemon receives of the position reports: tracking options with
    the interval rounded to one that the engines support, and a filter that limits the
    rate of the reports of each engine. */
module PositionReports {
  const UINT32_MAX: nat := 4_294_967_295
  const POSITION_REPORT_GAURD_BAND: nat := 30
  const LOC_OUTPUT_ENGINE_COUNT: nat := 4

  type uint32 = x: int | 0 <= x <= UINT32_MAX

  /** Arithmetic of uint32_t wraps around. */
  function Wrap(x: int): uint32 {
    x % (UINT32_MAX + 1)
  }

  /** The intervals that the engines support. */
  predicate Supported(tbfMsec: nat) {
    tbfMsec == 100 || tbfMsec == 200 || tbfMsec == 500
    || (1000 <= tbfMsec <= UINT32_MAX && tbfMsec % 1000 == 0)
  }

  function GetSupportedTbf(tbfMsec: uint32): (r: uint32)
    ensures Supported(r)
  {
    if tbfMsec < 200 then 100
    else if tbfMsec < 500 then 200
    else if tbfMsec < 1000 then 500
    else if tbfMsec > UINT32_MAX - 999 then UINT32_MAX / 1000 * 1000
    else
      assert Wrap(tbfMsec + 999) == tbfMsec + 999;
      Wrap(tbfMsec + 999) / 1000 * 1000
  }

  /** Below a second, the longest supported interval that is not longer than asked, if there
      is one; from a second on, the shortest that is not shorter, if there is one. */
  lemma TbfIsNearest(tbfMsec: uint32, other: uint32)
    requires Supported(other)
    ensures var r := GetSupportedTbf(tbfMsec);
            && (tbfMsec < 1000 && other <= tbfMsec ==> other <= r <= tbfMsec)
            && (tbfMsec < 100 ==> r <= other)
            && (tbfMsec >= 1000 && other >= tbfMsec ==> tbfMsec <= r <= other)
            && (tbfMsec > UINT32_MAX / 1000 * 1000 ==> other <= r)
  {
    if tbfMsec >= 1000 && other >= tbfMsec && tbfMsec <= UINT32_MAX - 999 {
      assert other == other / 1000 * 1000;
      assert (tbfMsec + 999) / 1000 <= other / 1000;
    }
  }

  /** The rounding as the source documents it: down to 100, 200 or 500 ms under a second, and
      up to whole seconds from there on, as far as 32 bits reach. */
  lemma TbfIs(tbfMsec: uint32)
    ensures var r := GetSupportedTbf(tbfMsec);
            && (tbfMsec < 200 ==> r == 100)
            && (200 <= tbfMsec < 500 ==> r == 200)
            && (500 <= tbfMsec < 1000 ==> r == 500)
            && (1000 <= tbfMsec <= 4_294_967_000 ==> r % 1000 == 0 && tbfMsec <= r < tbfMsec + 1000)
            && (tbfMsec > 4_294_967_000 ==> r == 4_294_967_000)
  {
  }

  lemma TbfIsIdempotentAndMonotone(a: uint32, b: uint32)
    requires a <= b
    ensures GetSupportedTbf(a) <= GetSupportedTbf(b)
    ensures Supported(a) <==> GetSupportedTbf(a) == a
  {
    if a >= 1000 && b <= UINT32_MAX - 999 {
      assert (a + 999) / 1000 <= (b + 999) / 1000;
    }
  }

  // --------------------------------------------------------------- the filter

  /** success: the report's session status is LOC_SESS_SUCCESS. gpsAccurate, systemMsec: its
      GPS time. boot: the boot time in milliseconds when it arrives. */
  datatype Report = Report(engine: nat, success: bool, gpsAccurate: bool, systemMsec: nat, boot: nat)

  /** The entries of one engine in mPrevPosReportSentBootTimeMsec and mFirstFixalFixReceived. */
  datatype Filter = Filter(prev: nat, firstFinal: bool)

  predicate Aligned(interval: uint32, r: Report)
    requires interval != 0
  {
    r.gpsAccurate && r.systemMsec % interval == 0
  }

  /** The part of filterPositionReport after its first test. The second result says that the
      report is held back. */
  function FilterOne(f: Filter, interval: uint32, r: Report): (Filter, bool)
    requires interval != 0
  {
    var lowerBound := Wrap(interval - POSITION_REPORT_GAURD_BAND);
    if !f.firstFinal && r.success then (Filter(r.boot, true), false)
    else
      var g := f.(firstFinal := f.firstFinal && r.success);
      if Aligned(interval, r) then (g.(prev := r.boot), false)
      else if f.prev == 0 then (g.(prev := r.boot), false)
      else if r.boot < f.prev then (g.(prev := r.boot), false)
      else if lowerBound <= r.boot - f.prev then (g.(prev := r.boot), false)
      else (g, true)
  }

  // ------------------------------------------------------------------ tracking

  /** api: mLocationApi is not null. */
  datatype Tracker = Tracker(api: bool, session: nat, minInterval: uint32, tracking: bool, filters: seq<Filter>)

  predicate Counts(t: Tracker, r: Report) {
    t.minInterval != 0 && r.engine < LOC_OUTPUT_ENGINE_COUNT && r.engine < |t.filters|
  }

  function FilterReport(t: Tracker, r: Report): (Tracker, bool) {
    if !Counts(t, r) then (t, false)
    else
      var (g, held) := FilterOne(t.filters[r.engine], t.minInterval, r);
      (t.(filters := t.filters[r.engine := g]), held)
  }

  /** halId: what the HAL answers when it is asked to start. */
  function StartTracking(t: Tracker, interval: uint32, halId: nat): Tracker {
    if t.session == 0 && t.api
    then t.(minInterval := GetSupportedTbf(interval), session := halId, tracking := true)
    else t
  }

  function StopTracking(t: Tracker): Tracker {
    t.(tracking := false, session := if t.session != 0 && t.api then 0 else t.session)
  }

  function UpdateTracking(t: Tracker, interval: uint32): Tracker {
    if t.session != 0 && t.api then t.(minInterval := GetSupportedTbf(interval)) else t
  }

  function NewTracker(api: bool): Tracker {
    Tracker(api, 0, 0, false, seq(LOC_OUTPUT_ENGINE_COUNT, i => Filter(0, false)))
  }

  // --------------------------------------------------------------------- runs

  datatype Event =
    | Start(interval: uint32, halId: nat)
    | Stop
    | Update(interval: uint32)
    | Incoming(r: Report)

  function Step(t: Tracker, e: Event): Tracker {
    match e
    case Start(interval, halId) => StartTracking(t, interval, halId)
    case Stop => StopTracking(t)
    case Update(interval) => UpdateTracking(t, interval)
    case Incoming(r) => FilterReport(t, r).0
  }

  /** The handler after the first n events. */
  function At(api: bool, es: seq<Event>, n: nat): (t: Tracker)
    requires n <= |es|
    ensures |t.filters| == LOC_OUTPUT_ENGINE_COUNT
  {
    if n == 0 then NewTracker(api) else Step(At(api, es, n - 1), es[n - 1])
  }

  /** The subtraction of the guard band never wraps around: the interval is 0, in which case
      the filter does nothing, or a supported one. It is not 0 while a session runs. */
  lemma {:induction false} IntervalIsSupported(api: bool, es: seq<Event>, n: nat)
    requires n <= |es|
    ensures var t := At(api, es, n).minInterval;
            && (t == 0 || (Supported(t) && Wrap(t - POSITION_REPORT_GAURD_BAND) == t - POSITION_REPORT_GAURD_BAND))
            && (At(api, es, n).session != 0 ==> t != 0)
  {
    if n > 0 {
      IntervalIsSupported(api, es, n - 1);
    }
  }

  // ------------------------------------------------ tracking, from the events

  /** The session after the first n events: what the HAL gave at the last start that found
      none, and none after a stop. */
  function SessionAfter(api: bool, es: seq<Event>, n: nat): nat
    requires n <= |es|
  {
    if n == 0 || !api then 0
    else
      var before := SessionAfter(api, es, n - 1);
      match es[n - 1]
      case Start(_, halId) => if before == 0 then halId else before
      case Stop => 0
      case _ => before
  }

  /** Event k sets the options: a start without a session, or an update during one. */
  predicate SetsOptions(api: bool, es: seq<Event>, k: nat)
    requires k < |es|
  {
    api && ((es[k].Start? && SessionAfter(api, es, k) == 0) || (es[k].Update? && SessionAfter(api, es, k) != 0))
  }

  /** The last such event among the first n, or -1. */
  function LastOptions(api: bool, es: seq<Event>, n: nat): (l: int)
    requires n <= |es|
    ensures -1 <= l < n
    ensures l >= 0 ==> SetsOptions(api, es, l)
    ensures forall k :: l < k < n ==> !SetsOptions(api, es, k)
  {
    if n == 0 then -1 else if SetsOptions(api, es, n - 1) then n - 1 else LastOptions(api, es, n - 1)
  }

  /** The interval that was asked for last: 0 before any tracking. */
  function IntervalAfter(api: bool, es: seq<Event>, n: nat): uint32
    requires n <= |es|
  {
    var l := LastOptions(api, es, n);
    if l < 0 then 0 else GetSupportedTbf(es[l].interval)
  }

  /** Whether the last start without a session, or stop, was a start. */
  predicate TrackingAfter(api: bool, es: seq<Event>, n: nat)
    requires n <= |es|
  {
    n > 0 && match es[n - 1]
             case Start(_, _) => (api && SessionAfter(api, es, n - 1) == 0) || TrackingAfter(api, es, n - 1)
             case Stop => false
             case _ => TrackingAfter(api, es, n - 1)
  }

  /** Session, interval and tracking flag are what the events say: the interval is the
      rounded one of the last start or update that took effect. */
  lemma {:induction false} TrackingIsHistory(api: bool, es: seq<Event>, n: nat)
    requires n <= |es|
    ensures var t := At(api, es, n);
            && t.api == api
            && t.session == SessionAfter(api, es, n)
            && t.minInterval == IntervalAfter(api, es, n)
            && (t.tracking <==> TrackingAfter(api, es, n))
  {
    if n > 0 {
      TrackingIsHistory(api, es, n - 1);
    }
  }

  /** Event k is a report of engine e that goes through the filter: one of the four engines,
      while an interval is set. */
  predicate CountedFor(api: bool, es: seq<Event>, k: nat, e: nat)
    requires k < |es|
  {
    es[k].Incoming? && es[k].r.engine == e && e < 4 && IntervalAfter(api, es, k) != 0
  }

  /** The client gets report k. */
  predicate Delivered(api: bool, es: seq<Event>, k: nat)
    requires k < |es| && es[k].Incoming?
  {
    !FilterReport(At(api, es, k), es[k].r).1
  }

  /** Event k is such a report, and the client gets it. */
  predicate PassedFor(api: bool, es: seq<Event>, k: nat, e: nat)
    requires k < |es|
  {
    CountedFor(api, es, k, e) && Delivered(api, es, k)
  }

  /** The last counted report of engine e among the first n events, or -1. */
  function LastCounted(api: bool, es: seq<Event>, n: nat, e: nat): (l: int)
    requires n <= |es|
    ensures -1 <= l < n
    ensures l >= 0 ==> CountedFor(api, es, l, e)
    ensures forall k :: l < k < n ==> !CountedFor(api, es, k, e)
  {
    if n == 0 then -1 else if CountedFor(api, es, n - 1, e) then n - 1 else LastCounted(api, es, n - 1, e)
  }

  /** The last report of engine e that passed among the first n events, or -1. */
  function LastPassed(api: bool, es: seq<Event>, n: nat, e: nat): (l: int)
    requires n <= |es|
    ensures -1 <= l < n
    ensures l >= 0 ==> PassedFor(api, es, l, e)
    ensures forall k :: l < k < n ==> !PassedFor(api, es, k, e)
  {
    if n == 0 then -1 else if PassedFor(api, es, n - 1, e) then n - 1 else LastPassed(api, es, n - 1, e)
  }

  /** The stored time is the boot time of the engine's last report that passed, and the flag
      says that its last report was a final fix. */
  lemma {:induction false} StoredIsHistory(api: bool, es: seq<Event>, n: nat, e: nat)
    requires n <= |es| && e < LOC_OUTPUT_ENGINE_COUNT
    ensures var f := At(api, es, n).filters[e];
            var (p, c) := (LastPassed(api, es, n, e), LastCounted(api, es, n, e));
            && f.prev == (if p < 0 then 0 else es[p].r.boot)
            && (f.firstFinal <==> c >= 0 && es[c].r.success)
  {
    if n > 0 {
      StoredIsHistory(api, es, n - 1, e);
      TrackingIsHistory(api, es, n - 1);
      StepOne(At(api, es, n - 1), es[n - 1], e);
    }
  }

  /** What one event does to the filter of engine e. */
  lemma StepOne(t: Tracker, ev: Event, e: nat)
    requires |t.filters| == LOC_OUTPUT_ENGINE_COUNT && e < LOC_OUTPUT_ENGINE_COUNT
    ensures var counted := ev.Incoming? && ev.r.engine == e && t.minInterval != 0;
            Step(t, ev).filters[e] ==
            if counted then FilterOne(t.filters[e], t.minInterval, ev.r).0 else t.filters[e]
  {
  }

  lemma PassesOne(f: Filter, interval: uint32, r: Report)
    requires interval > POSITION_REPORT_GAURD_BAND
    ensures !FilterOne(f, interval, r).1 <==>
            || Aligned(interval, r)
            || (r.success && !f.firstFinal)
            || f.prev == 0 || r.boot < f.prev
            || r.boot - f.prev >= interval - POSITION_REPORT_GAURD_BAND
  {
    assert Wrap(interval - POSITION_REPORT_GAURD_BAND) == interval - POSITION_REPORT_GAURD_BAND;
  }

  /** A report passes exactly when it is not subject to the filter at all, or is aligned to
      GPS time, or the engine's first final fix after none or an intermediate one, or no
      earlier report passed (or one at boot time zero), or the clock went back since, or it
      comes at least the interval less 30 ms after the last that passed. */
  lemma PassesExactly(api: bool, es: seq<Event>, k: nat)
    requires k < |es| && es[k].Incoming?
    ensures var r, interval, e := es[k].r, IntervalAfter(api, es, k), es[k].r.engine;
            var (p, c) := (LastPassed(api, es, k, e), LastCounted(api, es, k, e));
            Delivered(api, es, k) <==>
            || interval == 0 || e >= 4
            || (r.gpsAccurate && r.systemMsec % interval == 0)
            || (r.success && (c < 0 || !es[c].r.success))
            || p < 0 || es[p].r.boot == 0
            || r.boot < es[p].r.boot
            || r.boot - es[p].r.boot >= interval - 30
  {
    var t, e := At(api, es, k), es[k].r.engine;
    TrackingIsHistory(api, es, k);
    if t.minInterval != 0 && e < 4 {
      StoredIsHistory(api, es, k, e);
      IntervalIsSupported(api, es, k);
      PassesOne(t.filters[e], t.minInterval, es[k].r);
      assert FilterReport(t, es[k].r).1 == FilterOne(t.filters[e], t.minInterval, es[k].r).1;
    }
  }

  /** A report that is held back comes less than the interval after one that passed. */
  lemma HeldBackIsRecent(api: bool, es: seq<Event>, k: nat, e: nat)
    requires k < |es| && CountedFor(api, es, k, e) && !PassedFor(api, es, k, e)
    ensures var p := LastPassed(api, es, k, e);
            p >= 0 && es[p].r.boot <= es[k].r.boot < es[p].r.boot + IntervalAfter(api, es, k) - 30
  {
    PassesExactly(api, es, k);
  }

  // ----------------------------------------------------------- one engine alone

  /** Event ev is of no concern to engine e. */
  predicate Foreign(ev: Event, e: nat) {
    ev.Incoming? && ev.r.engine != e
  }

  /** The run without the reports of the other engines. */
  function Alone(es: seq<Event>, e: nat): seq<Event> {
    if es == [] then []
    else Alone(es[..|es| - 1], e) + if Foreign(es[|es| - 1], e) then [] else [es[|es| - 1]]
  }

  /** For each report of engine e in turn, whether the client gets it. */
  function Decisions(api: bool, es: seq<Event>, n: nat, e: nat): seq<bool>
    requires n <= |es|
  {
    if n == 0 then []
    else Decisions(api, es, n - 1, e) +
         if es[n - 1].Incoming? && es[n - 1].r.engine == e
         then [!FilterReport(At(api, es, n - 1), es[n - 1].r).1] else []
  }

  lemma {:induction false} PrefixDecides(api: bool, es: seq<Event>, fs: seq<Event>, n: nat, e: nat)
    requires es <= fs && n <= |es|
    ensures At(api, es, n) == At(api, fs, n)
    ensures Decisions(api, es, n, e) == Decisions(api, fs, n, e)
  {
    if n > 0 {
      PrefixDecides(api, es, fs, n - 1, e);
    }
  }

  /** The state as far as engine e is concerned. */
  ghost predicate SameFor(t: Tracker, u: Tracker, e: nat) {
    && t.api == u.api && t.session == u.session && t.minInterval == u.minInterval && t.tracking == u.tracking
    && |t.filters| == LOC_OUTPUT_ENGINE_COUNT == |u.filters|
    && (e < LOC_OUTPUT_ENGINE_COUNT ==> t.filters[e] == u.filters[e])
  }

  lemma StepSame(t: Tracker, u: Tracker, ev: Event, e: nat)
    requires SameFor(t, u, e)
    ensures SameFor(Step(t, ev), if Foreign(ev, e) then u else Step(u, ev), e)
    ensures ev.Incoming? && ev.r.engine == e ==> FilterReport(t, ev.r).1 == FilterReport(u, ev.r).1
  {
  }

  /** The engines do not disturb one another: of an interleaved stream the client gets from
      each engine what it would get if that engine were the only one. */
  lemma {:induction false} EnginesAreIndependent(api: bool, es: seq<Event>, e: nat)
    ensures var own := Alone(es, e);
            && SameFor(At(api, es, |es|), At(api, own, |own|), e)
            && Decisions(api, es, |es|, e) == Decisions(api, own, |own|, e)
  {
    if es != [] {
      var front, last := es[..|es| - 1], es[|es| - 1];
      var own, own' := Alone(front, e), Alone(es, e);
      EnginesAreIndependent(api, front, e);
      PrefixDecides(api, front, es, |front|, e);
      PrefixDecides(api, own, own', |own|, e);
      var t, u := At(api, front, |front|), At(api, own, |own|);
      StepSame(t, u, last, e);
      assert At(api, es, |es|) == Step(t, last);
      if !Foreign(last, e) {
        assert own'[|own|] == last && At(api, own', |own'|) == Step(u, last);
      }
    }
  }
}
