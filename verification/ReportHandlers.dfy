/** `M2MReportHandler`: the fields of the source, changed by its methods. */
module ReportHandlers {
  import opened ReportModel
  import opened ReportThrottle
  import opened ReportNotifications
  import ReportEvents

  class ReportHandler {
    var attrs: Attributes
    var underObservation: bool
    var notify: bool
    var pminExceeded: bool
    var pmaxExceeded: bool
    var number: nat
    var pminTimer: bool
    var pmaxTimer: bool
    var current: real
    var high: real
    var low: real
    var last: real
    var changed: seq<nat>
    ghost var log: seq<Record>

    ghost function State(): (h: Handler)
      reads this
    {
      Handler(attrs, underObservation, notify, pminExceeded, pmaxExceeded, number, pminTimer, pmaxTimer,
              current, high, low, last, changed, log)
    }

    constructor ()
      ensures State() == NEW_HANDLER
    {
      attrs := DEFAULTS;
      underObservation, notify, pminExceeded, pmaxExceeded := false, false, false, false;
      number := 0;
      pminTimer, pmaxTimer := false, false;
      current, high, low, last := 0.0, 0.0, 0.0, -1.0;
      changed := [];
      log := [];
    }

    method HandleTimers()
      modifies this
      ensures State() == ReportModel.HandleTimers(old(State()))
    {
      if attrs.hasPmin {
        if attrs.pmin == attrs.pmax {
          pminExceeded := true;
        } else {
          pminExceeded := false;
          pminTimer := true;
        }
      }
      if attrs.hasPmax {
        if attrs.pmax > 0 {
          pmaxTimer := true;
        }
      }
    }

    /** Advancing the number, calling the observer and forgetting the changed ids. */
    method SendNotification(whole: bool)
      modifies this
      ensures State() == Send(old(State()), whole)
    {
      number := (number + 1) % 0x100_0000;
      if number == 1 {
        number := number + 1;
      }
      log := log + [Sent(changed, number % 0x1_0000, whole)];
      changed := [];
    }

    method SendPendingChange()
      modifies this
      ensures State() == SendChange(old(State()))
    {
      hide Send;
      pminExceeded := false;
      pmaxExceeded := false;
      notify := false;
      SendNotification(false);
      pmaxTimer := false;
    }

    method Report()
      modifies this
      ensures State() == ReportModel.Report(old(State()))
    {
      hide ReportModel.HandleTimers, Send, SendChange;
      if current != last && notify {
        SendPendingChange();
      } else if pmaxExceeded {
        SendNotification(true);
      }
      HandleTimers();
      last := current;
    }

    method ScheduleReport()
      modifies this
      ensures State() == ReportModel.ScheduleReport(old(State()))
    {
      hide ReportModel.Report;
      notify := true;
      if !attrs.hasPmin || pminExceeded {
        Report();
      }
    }

    predicate CheckThresholdValues()
      reads this
      ensures CheckThresholdValues() == ThresholdAccepts(State())
    {
      if attrs.hasSt then
        if current >= high || current <= low then true
        else if attrs.hasLt || attrs.hasGt then GtLtAccepts(attrs, current)
        else false
      else GtLtAccepts(attrs, current)
    }

    method WithholdValue()
      modifies this
      ensures State() == Withhold(old(State()))
    {
      notify := false;
      last := current;
      if attrs.hasLt || attrs.hasGt || attrs.hasSt {
        pminTimer := false;
        pminExceeded := true;
      }
    }

    method SetValue(value: real)
      modifies this
      ensures State() == ReportModel.SetValue(old(State()), value)
    {
      hide ReportModel.ScheduleReport, ThresholdAccepts, Withhold;
      current := value;
      log := log + [Updated(value)];
      if current != last {
        if CheckThresholdValues() {
          ScheduleReport();
        } else {
          WithholdValue();
        }
        high := current + attrs.st;
        low := current - attrs.st;
      }
    }

    method SetNotificationTrigger(id: nat)
      modifies this
      ensures State() == SetTrigger(old(State()), id)
    {
      hide ReportModel.ScheduleReport;
      var found := false;
      for it := 0 to |changed|
        invariant found <==> id in changed[..it]
        invariant State() == old(State())
      {
        if changed[it] == id {
          found := true;
          assert id in changed[..it + 1];
          break;
        }
      }
      assert found <==> id in changed;
      if !found {
        changed := changed + [id];
      }
      current := 0.0;
      last := 1.0;
      log := log + [Triggered(id)];
      ScheduleReport();
    }

    method PMinTimerExpired()
      modifies this
      ensures State() == PMinTimeout(old(State()))
    {
      hide ReportModel.Report;
      pminTimer := false;
      log := log + [PMinExpired];
      pminExceeded := true;
      if notify || (attrs.pmin > 0 && !attrs.hasPmax) {
        Report();
      }
    }

    method PMaxTimerExpired()
      modifies this
      ensures State() == PMaxTimeout(old(State()))
    {
      hide ReportModel.Report;
      pmaxTimer := false;
      log := log + [PMaxExpired];
      pmaxExceeded := true;
      if pminExceeded || !attrs.hasPmin {
        Report();
      }
    }

    method SetDefaultValues()
      modifies this
      ensures State() == SetDefaults(old(State()))
    {
      attrs := DEFAULTS;
      high, low := 0.0, 0.0;
      pminExceeded, pmaxExceeded := false, false;
      last := -1.0;
      changed := [];
      log := log + [Reset];
    }

    method SetUnderObservation(observed: bool)
      modifies this
      ensures State() == ReportModel.SetUnderObservation(old(State()), observed)
    {
      hide ReportModel.HandleTimers, SetDefaults;
      underObservation := observed;
      pminExceeded, pminTimer := false, false;
      pmaxExceeded, pmaxTimer := false, false;
      if observed {
        HandleTimers();
      } else {
        SetDefaultValues();
      }
    }

    method SetNotificationAttribute(w: Assignment, isResource: bool, numeric: bool) returns (success: bool)
      modifies this
      ensures Written(State(), success) == Assign(old(State()), w, isResource, numeric)
    {
      success := false;
      match w {
        case Pmin(v) =>
          attrs := attrs.(pmin := v, hasPmin := true);
          success := true;
        case Pmax(v) =>
          attrs := attrs.(pmax := v, hasPmax := true);
          success := true;
        case Gt(v) =>
          if isResource {
            attrs := attrs.(gt := v, hasGt := true);
            success := true;
          }
        case Lt(v) =>
          if isResource {
            attrs := attrs.(lt := v, hasLt := true);
            success := true;
          }
        case St(v) =>
          if isResource {
            attrs := attrs.(st := v, hasSt := true);
            high := current + v;
            low := current - v;
            success := true;
          }
        case Malformed =>
      }
      if !numeric && (attrs.hasGt || attrs.hasLt || attrs.hasSt) {
        success := false;
      }
    }

    method ParseNotificationAttribute(q: Query, isResource: bool, numeric: bool) returns (success: bool)
      modifies this
      ensures Written(State(), success) == ParseAttributes(old(State()), q, isResource, numeric)
    {
      hide Assign, ValidAttributes;
      var attrs0, high0, low0 := attrs, high, low;
      var options := q.Considered();
      success := true;
      var n := 0;
      while n < |options| && success
        invariant 0 <= n <= |options|
        invariant success ==> AssignAll(State(), options[n..], isResource, numeric) ==
                              AssignAll(old(State()), options, isResource, numeric)
        invariant !success ==> AssignAll(old(State()), options, isResource, numeric) == Written(State(), false)
      {
        success := SetNotificationAttribute(options[n], isResource, numeric);
        n := n + 1;
      }
      if success {
        success := ValidAttributes(attrs);
      } else if q.Several? {
        attrs, high, low := attrs0, high0, low0;
      }
    }

    /** Whatever is written, the attributes in force afterwards fit together; a failed write leaves the defaults. */
    method HandleObservationAttribute(q: Query, isResource: bool, numeric: bool) returns (success: bool)
      modifies this
      ensures ValidAttributes(attrs) && (!success ==> attrs == DEFAULTS && changed == [])
      ensures State() == WriteAttributes(old(State()), q, isResource, numeric)
      ensures success <==> ParseAttributes(old(State()), q, isResource, numeric).success
    {
      hide ParseAttributes, SetDefaults, ReportModel.SetUnderObservation, ValidAttributes, WriteAttributes;
      WriteFits(State(), q, isResource, numeric);
      WriteMeans(State(), q, isResource, numeric);
      success := ParseNotificationAttribute(q, isResource, numeric);
      if success {
        if underObservation {
          SetUnderObservation(true);
        }
      } else {
        SetDefaultValues();
      }
    }

    // ----- runs

    method Dispatch(e: Event)
      modifies this
      ensures State() == Step(old(State()), e)
    {
      hide ReportModel.SetValue, SetTrigger, PMinTimeout, PMaxTimeout, ReportModel.SetUnderObservation, WriteAttributes;
      match e {
        case Update(v) => SetValue(v);
        case Trigger(id) => SetNotificationTrigger(id);
        case ExpirePMin => PMinTimerExpired();
        case ExpirePMax => PMaxTimerExpired();
        case Observe(on) => SetUnderObservation(on);
        case Write(q, isResource, numeric) =>
          var _ := HandleObservationAttribute(q, isResource, numeric);
      }
    }

    method DispatchAll(es: seq<Event>)
      modifies this
      ensures State() == Run(old(State()), es)
    {
      hide Step;
      for i := 0 to |es|
        invariant State() == Run(old(State()), es[..i])
      {
        Dispatch(es[i]);
        assert es[..i + 1][..i] == es[..i];
      }
      assert es[..|es|] == es;
    }

    /**
     * Any events on a handler with any past: no id waits twice and none is lost, no number repeats
     * within 65535 notifications, and the attributes in force fit together.
     */
    method Play(es: seq<Event>, ghost past: seq<Event>)
      requires State() == Run(NEW_HANDLER, past)
      modifies this
      ensures State() == Run(NEW_HANDLER, past + es)
      ensures NoDuplicates(changed) && Accounted(log, changed)
      ensures NumbersDiffer(log)
      ensures ValidAttributes(attrs)
    {
      hide Run, NoDuplicates, Accounted, NumbersDiffer, ValidAttributes;
      DispatchAll(es);
      RunConcat(NEW_HANDLER, past, es);
      RunKeepsIds(past + es);
      RunNumbersDiffer(past + es);
      ReachableIsSane(past + es);
    }

    /**
     * Observation starts on a handler with any past, and then values, triggers and timers arrive in any
     * order. What is logged from then on is throttled when pmin limits and no value can be rejected, a
     * pending change is always scheduled, and every triggered id waits or was carried. Without pmin every
     * pmax expiry is followed by a notification, pmax never stops running, and the log is that of the
     * simple reporter.
     */
    method ReportUnderObservation(es: seq<Event>, ghost past: seq<Event>)
      requires State() == Run(NEW_HANDLER, past) && AllReporting(es)
      modifies this
      ensures State() == Run(NEW_HANDLER, past + [Observe(true)] + es)
      ensures old(log) <= log
      ensures old(Limits(attrs) && !CanReject(attrs)) ==> Throttled(log[|old(log)|..])
      ensures old(!Pending(State()) || Limits(attrs)) ==> Scheduled(State())
      ensures forall i :: |old(log)| <= i < |log| && log[i].Triggered? ==>
                log[i].id in changed || Carried(log, i, log[i].id)
      ensures old(!attrs.hasPmin) ==> ReportEvents.Prompt(log, |old(log)|) && ReportEvents.PMaxRuns(State())
      ensures old(!attrs.hasPmin && !Pending(State())) && ReportEvents.Unlimited(es) ==>
                log == old(log) + ReportEvents.AllRecords(old(attrs), ReportEvents.ReporterOf(old(State())), es)
    {
      hide Run, Throttled, Scheduled, CanReject, Carried, Step;
      hide ReportEvents.Prompt, ReportEvents.PMaxRuns, ReportEvents.AllRecords, ReportEvents.ReporterOf;
      ghost var h := State();
      SetUnderObservation(true);
      DispatchAll(es);
      ghost var o := ReportModel.SetUnderObservation(h, true);
      ObservedLog(h, past, es);
      RunConcat(NEW_HANDLER, past, [Observe(true)]);
      OneEvent(h);
      RunConcat(NEW_HANDLER, past + [Observe(true)], es);
      if Limits(h.attrs) && !CanReject(h.attrs) {
        ObservedIsSane(past);
        AlwaysThrottled(past, es);
      }
      ScheduledExactly(h);
      if !h.attrs.hasPmin {
        ObservedStep(h);
        ReportEvents.ObservedPrompt(h, es);
      }
      ghost var suffix := Run(Observed(past), es);
      forall i | |h.log| <= i < |log| && log[i].Triggered?
        ensures log[i].id in changed || Carried(log, i, log[i].id)
      {
        TriggersAreCarried(past, es, i - |h.log|);
        if log[i].id !in changed {
          CarriedLater(h.log, suffix.log, i - |h.log|, log[i].id);
        }
      }
    }
  }

  lemma WriteMeans(h: Handler, q: Query, isResource: bool, numeric: bool)
    ensures var w := ParseAttributes(h, q, isResource, numeric);
            WriteAttributes(h, q, isResource, numeric) ==
            if !w.success then SetDefaults(w.handler)
            else if w.handler.underObservation then ReportModel.SetUnderObservation(w.handler, true)
            else w.handler
  {
    hide ParseAttributes, SetDefaults, ReportModel.SetUnderObservation;
  }

  lemma OneEvent(h: Handler)
    ensures Run(h, [Observe(true)]) == ReportModel.SetUnderObservation(h, true)
  {
    hide ReportModel.SetUnderObservation;
    EmptyRun(h);
    assert [Observe(true)][..0] == [];
  }

  lemma ObservedStep(h: Handler)
    ensures Step(h, Observe(true)) == ReportModel.SetUnderObservation(h, true)
  {
    hide ReportModel.SetUnderObservation;
  }

  /** What is logged under observation follows what was logged before. */
  lemma ObservedLog(h: Handler, past: seq<Event>, es: seq<Event>)
    requires h == Run(NEW_HANDLER, past) && AllReporting(es)
    ensures var r := Run(ReportModel.SetUnderObservation(h, true), es);
            var suffix := Run(Observed(past), es);
            r.log == h.log + suffix.log && r.changed == suffix.changed
  {
    hide Run, HandleTimers;
    var o := ReportModel.SetUnderObservation(h, true);
    ObservingLogsNothing(h);
    assert Prefixed(o.(log := []), h.log) == o by { assert h.log + [] == h.log; }
    RunPrefixed(o.(log := []), h.log, es);
  }

  lemma ObservingLogsNothing(h: Handler)
    ensures ReportModel.SetUnderObservation(h, true).log == h.log
  {
  }

  lemma CarriedLater(before: seq<Record>, log: seq<Record>, from: nat, id: nat)
    requires Carried(log, from, id)
    ensures Carried(before + log, |before| + from, id)
  {
    var j :| from <= j < |log| && log[j].Sent? && id in log[j].ids;
    assert (before + log)[|before| + j] == log[j];
  }
}
