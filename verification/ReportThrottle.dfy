/** What every run of a report handler keeps: throttling by pmin, and no pending change forgotten. */
module ReportThrottle {
  import opened ReportModel

  // ----- every reachable handler

  /** The step band is two steps wide, attributes fit together, and an unset step is zero. */
  predicate Sane(h: Handler) {
    Banded(h) && ValidAttributes(h.attrs)
  }

  predicate Banded(h: Handler) {
    h.high - h.low == 2.0 * h.attrs.st && (!h.attrs.hasSt ==> h.attrs.st == 0.0)
  }

  lemma AssignedIsBanded(h: Handler, w: Assignment, isResource: bool, numeric: bool)
    requires Banded(h)
    ensures Banded(Assign(h, w, isResource, numeric).handler)
  {
  }

  lemma {:induction false} AssignedAreBanded(h: Handler, ws: seq<Assignment>, isResource: bool, numeric: bool)
    requires Banded(h)
    ensures Banded(AssignAll(h, ws, isResource, numeric).handler)
    decreases |ws|
  {
    hide Assign, Banded;
    if ws != [] {
      var first := Assign(h, ws[0], isResource, numeric);
      AssignedIsBanded(h, ws[0], isResource, numeric);
      if first.success {
        AssignedAreBanded(first.handler, ws[1..], isResource, numeric);
      }
    }
  }

  /** After any write the attributes in force fit together; a failed one leaves the defaults. */
  lemma WriteFits(h: Handler, q: Query, isResource: bool, numeric: bool)
    ensures var r := WriteAttributes(h, q, isResource, numeric);
            && ValidAttributes(r.attrs)
            && (!ParseAttributes(h, q, isResource, numeric).success ==> r.attrs == DEFAULTS && r.changed == [])
  {
    hide AssignAll;
  }

  lemma WriteIsSane(h: Handler, q: Query, isResource: bool, numeric: bool)
    requires Sane(h)
    ensures Sane(WriteAttributes(h, q, isResource, numeric))
  {
    hide Assign, AssignAll;
    AssignedAreBanded(h, q.Considered(), isResource, numeric);
  }

  /** The same attributes, step band and current value. */
  predicate SameFields(h: Handler, r: Handler) {
    r.attrs == h.attrs && r.high == h.high && r.low == h.low && r.current == h.current
  }

  lemma TimersKeepFields(h: Handler)
    ensures SameFields(h, HandleTimers(h))
  {
  }

  lemma SendKeepsFields(h: Handler, whole: bool)
    ensures SameFields(h, SendChange(h)) && SameFields(h, Send(h, whole))
  {
  }

  lemma ReportKeepsFields(h: Handler)
    ensures SameFields(h, Report(h)) && Report(h).last == h.current
  {
    hide HandleTimers, Send, SendChange;
    SendKeepsFields(h, true);
    TimersKeepFields(h);
    TimersKeepFields(SendChange(h));
    TimersKeepFields(Send(h, true));
  }

  lemma StepIsSane(h: Handler, e: Event)
    requires Sane(h)
    ensures Sane(Step(h, e))
  {
    hide Report, WriteAttributes, ThresholdAccepts, ValidAttributes, HasThreshold;
    match e
    case Update(v) =>
      ReportKeepsFields(h.(current := v, log := h.log + [Updated(v)], notify := true));
    case Trigger(id) =>
      var changed := if id in h.changed then h.changed else h.changed + [id];
      ReportKeepsFields(h.(changed := changed, current := 0.0, last := 1.0, log := h.log + [Triggered(id)], notify := true));
    case ExpirePMin =>
      ReportKeepsFields(h.(pminTimer := false, pminExceeded := true, log := h.log + [PMinExpired]));
    case ExpirePMax =>
      ReportKeepsFields(h.(pmaxTimer := false, pmaxExceeded := true, log := h.log + [PMaxExpired]));
    case Observe(on) =>
      DefaultsAreValid();
    case Write(q, isResource, numeric) =>
      WriteIsSane(h, q, isResource, numeric);
  }

  lemma DefaultsAreValid()
    ensures ValidAttributes(DEFAULTS)
  {
  }

  /** Whatever is written and whatever happens, the attributes in force always fit together. */
  lemma {:induction false} ReachableIsSane(es: seq<Event>)
    ensures Sane(Run(NEW_HANDLER, es))
    decreases |es|
  {
    if es != [] {
      ReachableIsSane(es[..|es| - 1]);
      StepIsSane(Run(NEW_HANDLER, es[..|es| - 1]), es[|es| - 1]);
    }
  }

  // ----- throttling

  /** A pmin period has expired since the last notification. */
  predicate Credit(log: seq<Record>) {
    exists i :: 0 <= i < |log| && log[i].PMinExpired? && NoneSent(log, i + 1)
  }

  predicate NoneSent(log: seq<Record>, from: nat) {
    forall k :: from <= k < |log| ==> !log[k].Sent?
  }

  /** Before the first notification, and between any two, a pmin period expires. */
  predicate Throttled(log: seq<Record>) {
    forall j :: 0 <= j < |log| && log[j].Sent? ==> Credit(log[..j])
  }

  lemma CreditSnoc(log: seq<Record>, r: Record)
    ensures Credit(log + [r]) <==> r.PMinExpired? || (Credit(log) && !r.Sent?)
  {
    var all := log + [r];
    if Credit(all) && !r.PMinExpired? {
      var i :| 0 <= i < |all| && all[i].PMinExpired? && NoneSent(all, i + 1);
      assert all[|log|] == r;
      assert log[i].PMinExpired? && NoneSent(log, i + 1) by {
        assert forall k :: 0 <= k < |log| ==> log[k] == all[k];
      }
    }
    if r.PMinExpired? {
      assert all[|log|].PMinExpired? && NoneSent(all, |log| + 1);
    } else if Credit(log) && !r.Sent? {
      var i :| 0 <= i < |log| && log[i].PMinExpired? && NoneSent(log, i + 1);
      assert all[i].PMinExpired? && NoneSent(all, i + 1);
    }
  }

  lemma ThrottledSnoc(log: seq<Record>, r: Record)
    ensures Throttled(log + [r]) <==> Throttled(log) && (r.Sent? ==> Credit(log))
  {
    hide Credit;
    var all := log + [r];
    assert all[..|log|] == log && all[|log|] == r;
    assert forall j :: 0 <= j < |log| ==> all[..j] == log[..j] && all[j] == log[j];
  }

  /** Attributes whose pmin is in force and different from pmax. */
  predicate Limits(a: Attributes) {
    a.hasPmin && a.pmin != a.pmax
  }

  /** Some value is turned away by the thresholds. */
  predicate CanReject(a: Attributes) {
    if a.hasSt then a.st > 0.0 else a.hasLt || a.hasGt
  }

  predicate ThrottleKept(h: Handler) {
    Limits(h.attrs) && Throttled(h.log) && (h.pminExceeded ==> Credit(h.log))
  }

  lemma ReportThrottles(h: Handler)
    requires Limits(h.attrs) && Throttled(h.log) && Credit(h.log)
    ensures ThrottleKept(Report(h)) && Report(h).attrs == h.attrs
  {
    hide Throttled, Credit;
    forall ids, n, whole { ThrottledSnoc(h.log, Sent(ids, n, whole)); }
  }

  lemma ScheduleThrottles(h: Handler)
    requires ThrottleKept(h)
    ensures ThrottleKept(ScheduleReport(h)) && ScheduleReport(h).attrs == h.attrs
  {
    hide Throttled, Credit, Report;
    if h.pminExceeded {
      ReportThrottles(h.(notify := true));
    }
  }

  /** A step that can never reject has an empty band, so the step rule lets every value through. */
  lemma NothingRejected(h: Handler)
    requires Banded(h) && !CanReject(h.attrs)
    ensures ThresholdAccepts(h)
  {
  }

  lemma StepThrottles(h: Handler, e: Event)
    requires ThrottleKept(h) && Banded(h) && !CanReject(h.attrs) && Reporting(e)
    ensures ThrottleKept(Step(h, e)) && Step(h, e).attrs == h.attrs
  {
    hide Throttled, Credit, Report, ScheduleReport, ThresholdAccepts, CanReject, Banded;
    match e
    case Update(v) =>
      var h1 := h.(current := v, log := h.log + [Updated(v)]);
      Recorded(h, Updated(v));
      NothingRejected(h1) by { assert Banded(h1) by { BandedOnly(h, h1); } }
      ScheduleThrottles(h1);
    case Trigger(id) =>
      var changed := if id in h.changed then h.changed else h.changed + [id];
      Recorded(h, Triggered(id));
      ScheduleThrottles(h.(changed := changed, current := 0.0, last := 1.0, log := h.log + [Triggered(id)]));
    case ExpirePMin =>
      Recorded(h, PMinExpired);
      ReportThrottles(h.(pminTimer := false, pminExceeded := true, log := h.log + [PMinExpired]));
    case ExpirePMax =>
      Recorded(h, PMaxExpired);
      if h.pminExceeded {
        ReportThrottles(h.(pmaxTimer := false, pmaxExceeded := true, log := h.log + [PMaxExpired]));
      }
  }

  lemma BandedOnly(h: Handler, h1: Handler)
    requires Banded(h) && h1.attrs == h.attrs && h1.high == h.high && h1.low == h.low
    ensures Banded(h1)
  {
  }

  lemma Recorded(h: Handler, r: Record)
    requires !r.Sent?
    ensures Throttled(h.log) ==> Throttled(h.log + [r])
    ensures Credit(h.log) || r.PMinExpired? ==> Credit(h.log + [r])
  {
    hide Throttled, Credit;
    ThrottledSnoc(h.log, r);
    CreditSnoc(h.log, r);
  }

  /** A handler put under observation after any history, with a fresh log. */
  function Observed(setup: seq<Event>): (after: Handler) {
    SetUnderObservation(Run(NEW_HANDLER, setup), true).(log := [])
  }

  lemma ObservedIsSane(setup: seq<Event>)
    ensures Sane(Observed(setup)) && Observed(setup).log == []
    ensures Observed(setup).attrs == Run(NEW_HANDLER, setup).attrs
    ensures Limits(Observed(setup).attrs) ==> !Observed(setup).pminExceeded && Observed(setup).pminTimer
    ensures Observed(setup).attrs.hasPmin && !Limits(Observed(setup).attrs) ==> Observed(setup).pminExceeded
  {
    hide Run, ValidAttributes;
    ReachableIsSane(setup);
  }

  lemma {:induction false} RunThrottles(h: Handler, es: seq<Event>)
    requires ThrottleKept(h) && Sane(h) && !CanReject(h.attrs) && AllReporting(es)
    ensures ThrottleKept(Run(h, es)) && Sane(Run(h, es)) && Run(h, es).attrs == h.attrs
    decreases |es|
  {
    hide ThrottleKept, CanReject, Step, ValidAttributes;
    if es != [] {
      var before := es[..|es| - 1];
      RunThrottles(h, before);
      StepThrottles(Run(h, before), es[|es| - 1]);
      StepIsSane(Run(h, before), es[|es| - 1]);
    }
  }

  /** With a pmin that differs from pmax and no value the thresholds can reject, every run is throttled. */
  lemma AlwaysThrottled(setup: seq<Event>, es: seq<Event>)
    requires Limits(Observed(setup).attrs) && !CanReject(Observed(setup).attrs) && AllReporting(es)
    ensures Throttled(Run(Observed(setup), es).log)
  {
    hide Run, Observed, CanReject, Sane;
    ObservedIsSane(setup);
    RunThrottles(Observed(setup), es);
  }

  // ----- the limits of throttling

  lemma RunSnoc(h: Handler, es: seq<Event>, e: Event)
    ensures Run(h, es + [e]) == Step(Run(h, es), e)
  {
    hide Step;
    assert (es + [e])[..|es|] == es;
  }

  /** A trigger is reported at once when pmin is unset or exceeded. */
  lemma TriggerSends(h: Handler, id: nat)
    requires !h.attrs.hasPmin || h.pminExceeded
    ensures var log := SetTrigger(h, id).log;
            |log| == |h.log| + 2 && log[..|h.log| + 1] == h.log + [Triggered(id)] && log[|h.log| + 1].Sent?
  {
  }

  function Greater(x: real, y: real): (r: real)
    ensures r >= x && r >= y
  {
    if x < y then y else x
  }

  /** A new value that the thresholds let through. */
  function Accepted(h: Handler): (y: real)
    ensures y != h.last && ThresholdAccepts(h.(current := y))
  {
    var a := h.attrs;
    if a.hasSt then Greater(h.high, h.last) + 1.0
    else if a.hasLt then -Greater(-a.lt, -h.last) - 1.0
    else if a.hasGt then Greater(a.gt, h.last) + 1.0
    else h.last + 1.0
  }

  lemma ThresholdsIgnoreLog(h: Handler, v: real, log: seq<Record>)
    ensures ThresholdAccepts(h.(current := v, log := log)) <==> ThresholdAccepts(h.(current := v))
  {
  }

  /** An accepted value is reported at once when pmin is unset or exceeded. */
  lemma AcceptedIsSent(h: Handler)
    requires !h.attrs.hasPmin || h.pminExceeded
    ensures var log := SetValue(h, Accepted(h)).log;
            && |log| == |h.log| + 2 && log[..|h.log| + 1] == h.log + [Updated(Accepted(h))]
            && log[|h.log| + 1].Sent?
  {
    hide ThresholdAccepts, NextNumber, Accepted;
    var y := Accepted(h);
    var h1 := h.(current := y, log := h.log + [Updated(y)]);
    ThresholdsIgnoreLog(h, y, h1.log);
    ReportLog(h1.(notify := true));
  }

  lemma ReportLog(h: Handler)
    requires Pending(h)
    ensures Report(h).log == h.log + [Sent(h.changed, NextNumber(h.number) % 0x1_0000, false)]
  {
    hide NextNumber;
  }

  lemma UnthrottledAccepted(h: Handler)
    requires !h.attrs.hasPmin || h.pminExceeded
    requires !Credit(h.log)
    ensures !Throttled(SetValue(h, Accepted(h)).log)
  {
    hide SetValue, Throttled, Credit, Accepted;
    AcceptedIsSent(h);
    var y := Accepted(h);
    var log := SetValue(h, y).log;
    var sent := log[|log| - 1];
    assert log == (h.log + [Updated(y)]) + [sent];
    CreditSnoc(h.log, Updated(y));
    ThrottledSnoc(h.log + [Updated(y)], sent);
  }

  /** A value that the gt and lt limits, if there are any, turn away, and which is not the last one reported. */
  function Rejected(a: Attributes, last: real): (x: real)
    requires ValidAttributes(a) && CanReject(a) && (!a.hasSt ==> a.st == 0.0)
    ensures x != last && (a.hasLt || a.hasGt ==> !GtLtAccepts(a, x))
  {
    if a.hasLt then if a.lt != last then a.lt else if a.hasGt then a.gt else a.lt + 1.0
    else if a.hasGt then if a.gt != last then a.gt else a.gt - 1.0
    else last + 1.0
  }

  /**
   * Reporting a value twice that the limits turn away marks pmin as exceeded although no period
   * expired: the first report may still be accepted for its step, the second cannot be.
   */
  lemma RejectionUnthrottles(h: Handler, x: real)
    requires Limits(h.attrs) && !h.pminExceeded && CanReject(h.attrs)
    requires x != h.last && (h.attrs.hasLt || h.attrs.hasGt ==> !GtLtAccepts(h.attrs, x))
    ensures var h2 := SetValue(SetValue(h, x), x);
            h2.pminExceeded && h2.log == h.log + [Updated(x), Updated(x)]
  {
    hide SetValue, CanReject, GtLtAccepts;
    FirstUpdate(h, x);
    SecondUpdate(SetValue(h, x), x);
    assert h.log + [Updated(x)] + [Updated(x)] == h.log + [Updated(x), Updated(x)];
  }

  lemma FirstUpdate(h: Handler, x: real)
    requires Limits(h.attrs) && !h.pminExceeded && CanReject(h.attrs) && x != h.last
    ensures var h1 := SetValue(h, x);
            && h1.log == h.log + [Updated(x)] && h1.attrs == h.attrs
            && h1.high == x + h.attrs.st && h1.low == x - h.attrs.st
            && (if h1.pminExceeded then h1.last == x else h1.last == h.last)
  {
    hide Report, ThresholdAccepts;
    if !ThresholdAccepts(h.(current := x, log := h.log + [Updated(x)])) {
      RejectedMeansThreshold(h.(current := x, log := h.log + [Updated(x)]));
    }
  }

  lemma SecondUpdate(h: Handler, x: real)
    requires CanReject(h.attrs) && (h.attrs.hasLt || h.attrs.hasGt ==> !GtLtAccepts(h.attrs, x))
    requires h.high == x + h.attrs.st && h.low == x - h.attrs.st
    requires h.pminExceeded ==> h.last == x
    requires !h.pminExceeded ==> h.last != x
    ensures var h1 := SetValue(h, x);
            h1.pminExceeded && h1.log == h.log + [Updated(x)]
  {
    hide GtLtAccepts, ScheduleReport;
    var h1 := h.(current := x, log := h.log + [Updated(x)]);
    assert !ThresholdAccepts(h1);
  }

  lemma UnthrottledUpdates(h: Handler) returns (es: seq<Event>)
    requires Limits(h.attrs) && !h.pminExceeded && CanReject(h.attrs) && Sane(h) && h.log == []
    ensures AllUpdates(es) && AllReporting(es) && !Throttled(Run(h, es).log)
  {
    hide SetValue, CanReject, Throttled, Credit, Limits, GtLtAccepts, ValidAttributes, Run, Accepted;
    var x := Rejected(h.attrs, h.last);
    RejectionUnthrottles(h, x);
    var h2 := SetValue(SetValue(h, x), x);
    assert !Credit(h2.log) by {
      CreditSnoc([], Updated(x));
      CreditSnoc([Updated(x)], Updated(x));
      assert [] + [Updated(x)] == [Updated(x)] && [Updated(x)] + [Updated(x)] == h2.log;
      NoCredit();
    }
    var y := Accepted(h2);
    UnthrottledAccepted(h2);
    es := [Update(x), Update(x), Update(y)];
    EmptyRun(h);
    RunSnoc(h, [], Update(x));
    RunSnoc(h, [Update(x)], Update(x));
    RunSnoc(h, [Update(x), Update(x)], Update(y));
    assert [] + [Update(x)] == [Update(x)];
    assert [Update(x)] + [Update(x)] == [Update(x), Update(x)];
    assert [Update(x), Update(x)] + [Update(y)] == es;
  }

  lemma EmptyRun(h: Handler)
    ensures Run(h, []) == h
  {
  }

  lemma NoCredit()
    ensures !Credit([])
  {
  }

  lemma UnthrottledAtOnce(h: Handler) returns (es: seq<Event>)
    requires (!h.attrs.hasPmin || h.pminExceeded) && h.log == []
    ensures AllUpdates(es) && AllReporting(es) && !Throttled(Run(h, es).log)
  {
    hide SetValue, Throttled, Credit, Run, Accepted;
    NoCredit();
    UnthrottledAccepted(h);
    es := [Update(Accepted(h))];
    EmptyRun(h);
    RunSnoc(h, [], Update(Accepted(h)));
    assert [] + [Update(Accepted(h))] == es;
  }

  /** Value updates only, as a resource with a single numeric value sees them. */
  predicate AllUpdates(es: seq<Event>) {
    forall i :: 0 <= i < |es| ==> es[i].Update?
  }

  ghost predicate ThrottledInEveryUpdateRun(h: Handler) {
    forall es :: AllUpdates(es) ==> Throttled(Run(h, es).log)
  }

  ghost predicate ThrottledInEveryRun(h: Handler) {
    forall es :: AllReporting(es) ==> Throttled(Run(h, es).log)
  }

  /**
   * Exactly when pmin throttles: it must be set, differ from pmax, and no threshold may be able to
   * reject a value, because a rejected value counts as an expired pmin. Value updates alone show it.
   */
  lemma ThrottledExactly(setup: seq<Event>)
    ensures ThrottledInEveryRun(Observed(setup)) <==>
            Limits(Run(NEW_HANDLER, setup).attrs) && !CanReject(Run(NEW_HANDLER, setup).attrs)
    ensures ThrottledInEveryUpdateRun(Observed(setup)) <==>
            Limits(Run(NEW_HANDLER, setup).attrs) && !CanReject(Run(NEW_HANDLER, setup).attrs)
  {
    hide Run, Observed, CanReject, Throttled, Sane;
    ObservedIsSane(setup);
    var h := Observed(setup);
    if Limits(h.attrs) && !CanReject(h.attrs) {
      forall es | AllReporting(es) ensures Throttled(Run(h, es).log) {
        AlwaysThrottled(setup, es);
      }
      forall es | AllUpdates(es) ensures AllReporting(es) {
      }
    } else if Limits(h.attrs) {
      var es := UnthrottledUpdates(h);
      assert !Throttled(Run(h, es).log);
    } else {
      var es := UnthrottledAtOnce(h);
      assert !Throttled(Run(h, es).log);
    }
  }

  // ----- no due change is left unscheduled

  /** A pending change waits for a running pmin timer. */
  predicate Scheduled(h: Handler) {
    Pending(h) ==> h.attrs.hasPmin && !h.pminExceeded && h.pminTimer
  }

  /** While pmin is not exceeded its timer runs. */
  predicate TimerRuns(h: Handler) {
    h.attrs.hasPmin && !h.pminExceeded ==> h.pminTimer
  }

  lemma ReportSchedules(h: Handler)
    ensures !Pending(Report(h)) && TimerRuns(Report(h))
  {
  }

  lemma RejectedMeansThreshold(h: Handler)
    requires !ThresholdAccepts(h)
    ensures HasThreshold(h.attrs)
  {
  }

  lemma StepSchedules(h: Handler, e: Event)
    requires Scheduled(h) && TimerRuns(h) && Reporting(e)
    ensures Scheduled(Step(h, e)) && TimerRuns(Step(h, e))
  {
    hide Report, ThresholdAccepts;
    match e
    case Update(v) =>
      var h1 := h.(current := v, log := h.log + [Updated(v)]);
      ReportSchedules(h1.(notify := true));
      ReportKeepsFields(h1.(notify := true));
      if !ThresholdAccepts(h1) {
        RejectedMeansThreshold(h1);
      }
    case Trigger(id) =>
      var changed := if id in h.changed then h.changed else h.changed + [id];
      ReportSchedules(h.(changed := changed, current := 0.0, last := 1.0, log := h.log + [Triggered(id)], notify := true));
    case ExpirePMin =>
      ReportSchedules(h.(pminTimer := false, pminExceeded := true, log := h.log + [PMinExpired]));
    case ExpirePMax =>
      ReportSchedules(h.(pmaxTimer := false, pmaxExceeded := true, log := h.log + [PMaxExpired]));
  }

  lemma {:induction false} RunSchedules(h: Handler, es: seq<Event>)
    requires Scheduled(h) && TimerRuns(h) && AllReporting(es)
    ensures Scheduled(Run(h, es)) && TimerRuns(Run(h, es))
    decreases |es|
  {
    hide Step, Scheduled, TimerRuns;
    if es != [] {
      RunSchedules(h, es[..|es| - 1]);
      StepSchedules(Run(h, es[..|es| - 1]), es[|es| - 1]);
    }
  }

  /** The expiry of the pmin timer sends a pending change, exactly once, with all the changed ids. */
  lemma ExpirySends(h: Handler)
    requires Pending(h)
    ensures var r := PMinTimeout(h);
            && r.log == h.log + [PMinExpired, Sent(h.changed, NextNumber(h.number) % 0x1_0000, false)]
            && !Pending(r)
  {
    hide NextNumber;
  }

  ghost predicate ScheduledInEveryRun(h: Handler) {
    forall es :: AllReporting(es) ==> Scheduled(Run(h, es))
  }

  /**
   * After observation starts, a pending change is always scheduled, whatever the thresholds, unless
   * it was pending before and pmin is unset or equal to pmax.
   */
  lemma ScheduledExactly(h: Handler)
    ensures ScheduledInEveryRun(SetUnderObservation(h, true)) <==> !Pending(h) || Limits(h.attrs)
  {
    hide Run;
    var o := SetUnderObservation(h, true);
    assert Pending(o) == Pending(h) && TimerRuns(o);
    if !Pending(h) || Limits(h.attrs) {
      forall es | AllReporting(es) ensures Scheduled(Run(o, es)) {
        RunSchedules(o, es);
      }
    } else {
      EmptyRun(o);
      assert AllReporting([]) && !Scheduled(Run(o, []));
    }
  }

  // ----- what happened before does not matter

  /** The handler with something logged before. */
  function Prefixed(h: Handler, p: seq<Record>): (r: Handler) {
    h.(log := p + h.log)
  }

  lemma Longer(p: seq<Record>, log: seq<Record>, r: Record)
    ensures p + log + [r] == p + (log + [r])
  {
  }

  lemma SendPrefixed(h: Handler, p: seq<Record>, whole: bool)
    ensures Send(Prefixed(h, p), whole) == Prefixed(Send(h, whole), p)
  {
    hide NextNumber;
    Longer(p, h.log, Sent(h.changed, NextNumber(h.number) % 0x1_0000, whole));
  }

  lemma TimersPrefixed(h: Handler, p: seq<Record>)
    ensures HandleTimers(Prefixed(h, p)) == Prefixed(HandleTimers(h), p)
  {
    if h.attrs.hasPmin {
      if h.attrs.pmin == h.attrs.pmax {
      } else {
      }
    }
  }

  lemma SendChangePrefixed(h: Handler, p: seq<Record>)
    ensures SendChange(Prefixed(h, p)) == Prefixed(SendChange(h), p)
  {
    hide Send;
    SendPrefixed(h.(pminExceeded := false, pmaxExceeded := false, notify := false), p, false);
  }

  /** What a report sends, before the timers start again. */
  function SentBy(h: Handler): (r: Handler) {
    if Pending(h) then SendChange(h) else if h.pmaxExceeded then Send(h, true) else h
  }

  lemma SentByPrefixed(h: Handler, p: seq<Record>)
    ensures SentBy(Prefixed(h, p)) == Prefixed(SentBy(h), p)
  {
    hide Send, SendChange;
    assert Pending(Prefixed(h, p)) == Pending(h) && Prefixed(h, p).pmaxExceeded == h.pmaxExceeded;
    hide Prefixed, Pending;
    SendPrefixed(h, p, true);
    SendChangePrefixed(h, p);
  }

  lemma Settled(h: Handler, p: seq<Record>)
    ensures Prefixed(h, p).(last := Prefixed(h, p).current) == Prefixed(h.(last := h.current), p)
  {
  }

  lemma ReportPrefixed(h: Handler, p: seq<Record>)
    ensures Report(Prefixed(h, p)) == Prefixed(Report(h), p)
  {
    hide Send, SendChange, HandleTimers, Prefixed, Pending;
    SentByPrefixed(h, p);
    TimersPrefixed(SentBy(h), p);
    Settled(HandleTimers(SentBy(h)), p);
  }

  lemma SchedulePrefixed(h: Handler, p: seq<Record>)
    ensures ScheduleReport(Prefixed(h, p)) == Prefixed(ScheduleReport(h), p)
  {
    hide Report;
    ReportPrefixed(h.(notify := true), p);
  }

  lemma WithholdPrefixed(h: Handler, p: seq<Record>)
    ensures Withhold(Prefixed(h, p)) == Prefixed(Withhold(h), p)
  {
    hide HasThreshold;
  }

  /** What becomes of a new value, before the step band moves. */
  function TakenUp(h: Handler): (r: Handler) {
    if ThresholdAccepts(h) then ScheduleReport(h) else Withhold(h)
  }

  function Rebanded(h: Handler): (r: Handler) {
    h.(high := h.current + h.attrs.st, low := h.current - h.attrs.st)
  }

  lemma TakenUpPrefixed(h: Handler, p: seq<Record>)
    ensures TakenUp(Prefixed(h, p)) == Prefixed(TakenUp(h), p)
  {
    hide ScheduleReport, Withhold, GtLtAccepts;
    assert ThresholdAccepts(Prefixed(h, p)) == ThresholdAccepts(h);
    hide Prefixed, ThresholdAccepts;
    SchedulePrefixed(h, p);
    WithholdPrefixed(h, p);
  }

  lemma RebandedPrefixed(h: Handler, p: seq<Record>)
    ensures Rebanded(Prefixed(h, p)) == Prefixed(Rebanded(h), p)
  {
  }

  lemma SetValueSteps(h: Handler, v: real)
    ensures var h1 := h.(current := v, log := h.log + [Updated(v)]);
            SetValue(h, v) == if v == h.last then h1 else Rebanded(TakenUp(h1))
  {
    hide ScheduleReport, Withhold, ThresholdAccepts;
  }

  lemma UpdatePrefixed(h: Handler, p: seq<Record>, v: real)
    ensures SetValue(Prefixed(h, p), v) == Prefixed(SetValue(h, v), p)
  {
    hide SetValue, TakenUp, Rebanded;
    var h1 := h.(current := v, log := h.log + [Updated(v)]);
    Longer(p, h.log, Updated(v));
    SetValueSteps(h, v);
    SetValueSteps(Prefixed(h, p), v);
    TakenUpPrefixed(h1, p);
    RebandedPrefixed(TakenUp(h1), p);
  }

  lemma TriggerPrefixed(h: Handler, p: seq<Record>, id: nat)
    ensures SetTrigger(Prefixed(h, p), id) == Prefixed(SetTrigger(h, id), p)
  {
    hide ScheduleReport;
    Longer(p, h.log, Triggered(id));
    var changed := if id in h.changed then h.changed else h.changed + [id];
    SchedulePrefixed(h.(changed := changed, current := 0.0, last := 1.0, log := h.log + [Triggered(id)]), p);
  }

  lemma PMinPrefixed(h: Handler, p: seq<Record>)
    ensures PMinTimeout(Prefixed(h, p)) == Prefixed(PMinTimeout(h), p)
  {
    hide Report;
    Longer(p, h.log, PMinExpired);
    ReportPrefixed(h.(pminTimer := false, pminExceeded := true, log := h.log + [PMinExpired]), p);
  }

  lemma PMaxPrefixed(h: Handler, p: seq<Record>)
    ensures PMaxTimeout(Prefixed(h, p)) == Prefixed(PMaxTimeout(h), p)
  {
    hide Report;
    Longer(p, h.log, PMaxExpired);
    ReportPrefixed(h.(pmaxTimer := false, pmaxExceeded := true, log := h.log + [PMaxExpired]), p);
  }

  lemma StepPrefixed(h: Handler, p: seq<Record>, e: Event)
    requires Reporting(e)
    ensures Step(Prefixed(h, p), e) == Prefixed(Step(h, e), p)
  {
    hide SetValue, SetTrigger, PMinTimeout, PMaxTimeout, Prefixed;
    match e
    case Update(v) => UpdatePrefixed(h, p, v);
    case Trigger(id) => TriggerPrefixed(h, p, id);
    case ExpirePMin => PMinPrefixed(h, p);
    case ExpirePMax => PMaxPrefixed(h, p);
  }

  /** A reporting run only appends to the log, and what it appends does not depend on what was there. */
  lemma {:induction false} RunPrefixed(h: Handler, p: seq<Record>, es: seq<Event>)
    requires AllReporting(es)
    ensures Run(Prefixed(h, p), es) == Prefixed(Run(h, es), p)
    decreases |es|
  {
    hide Step, Prefixed;
    if es != [] {
      RunPrefixed(h, p, es[..|es| - 1]);
      StepPrefixed(Run(h, es[..|es| - 1]), p, es[|es| - 1]);
    }
  }

  lemma {:induction false} RunConcat(h: Handler, a: seq<Event>, b: seq<Event>)
    ensures Run(h, a + b) == Run(Run(h, a), b)
    decreases |b|
  {
    hide Step;
    if b == [] {
      assert a + b == a;
    } else {
      var init := b[..|b| - 1];
      RunConcat(h, a, init);
      assert (a + b)[..|a + b| - 1] == a + init;
    }
  }
}
