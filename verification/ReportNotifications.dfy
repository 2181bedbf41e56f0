/** The notifications of every run: the changed ids they carry and the observation numbers they bear. */
module ReportNotifications {
  import opened ReportModel
  import opened ReportThrottle
  import opened M2MString

  // ----- changed instance ids

  predicate NoDuplicates(ids: seq<nat>) {
    forall i, j :: 0 <= i < j < |ids| ==> ids[i] != ids[j]
  }

  /** Something at or after `from` in the log settles an id: a notification carries it, or a reset drops it. */
  predicate Settled(log: seq<Record>, from: nat, id: nat) {
    exists j :: from <= j < |log| && ((log[j].Sent? && id in log[j].ids) || log[j].Reset?)
  }

  /** Every triggered id is still waiting or has been settled since. */
  predicate Accounted(log: seq<Record>, changed: seq<nat>) {
    forall i :: 0 <= i < |log| && log[i].Triggered? ==> log[i].id in changed || Settled(log, i, log[i].id)
  }

  predicate IdsKept(h: Handler) {
    NoDuplicates(h.changed) && Accounted(h.log, h.changed)
  }

  lemma SettledGrows(log: seq<Record>, r: Record, from: nat, id: nat)
    requires Settled(log, from, id)
    ensures Settled(log + [r], from, id)
  {
    var j :| from <= j < |log| && ((log[j].Sent? && id in log[j].ids) || log[j].Reset?);
    assert (log + [r])[j] == log[j];
  }

  /** A record that is neither a trigger nor a notification changes nothing; a trigger adds its id. */
  lemma AccountedRecord(log: seq<Record>, changed: seq<nat>, r: Record)
    requires Accounted(log, changed) && (r.Triggered? ==> r.id in changed)
    ensures Accounted(log + [r], changed)
  {
    var all := log + [r];
    forall i | 0 <= i < |all| && all[i].Triggered? ensures all[i].id in changed || Settled(all, i, all[i].id) {
      if i < |log| && !(log[i].id in changed) {
        SettledGrows(log, r, i, log[i].id);
      }
    }
  }

  /** A notification with all the waiting ids, or a reset, settles every trigger. */
  lemma AccountedSettle(log: seq<Record>, changed: seq<nat>, r: Record)
    requires Accounted(log, changed) && (r.Reset? || (r.Sent? && r.ids == changed))
    ensures Accounted(log + [r], [])
  {
    var all := log + [r];
    forall i | 0 <= i < |all| && all[i].Triggered? ensures Settled(all, i, all[i].id) {
      if log[i].id in changed {
        assert all[|log|] == r;
      } else {
        SettledGrows(log, r, i, log[i].id);
      }
    }
  }

  lemma SendKeepsIds(h: Handler, whole: bool)
    requires IdsKept(h)
    ensures IdsKept(Send(h, whole))
  {
    hide NextNumber, Accounted;
    AccountedSettle(h.log, h.changed, Sent(h.changed, NextNumber(h.number) % 0x1_0000, whole));
  }

  /** What a report does to the log, the waiting ids and the counter: one notification, or nothing. */
  lemma ReportSends(h: Handler)
    ensures var s := if Pending(h) || h.pmaxExceeded then Send(h, !Pending(h)) else h;
            Report(h).log == s.log && Report(h).changed == s.changed && Report(h).number == s.number
  {
    hide NextNumber;
    if Pending(h) {
      TimersKeepLog(SendChange(h));
    } else if h.pmaxExceeded {
      TimersKeepLog(Send(h, true));
    } else {
      TimersKeepLog(h);
    }
  }

  lemma TimersKeepLog(h: Handler)
    ensures var r := HandleTimers(h); r.log == h.log && r.changed == h.changed && r.number == h.number
  {
    var r := HandleTimers(h);
    if h.attrs.hasPmin {
      assert r.log == h.log;
    }
  }

  lemma ReportKeepsIds(h: Handler)
    requires IdsKept(h)
    ensures IdsKept(Report(h))
  {
    hide Send, Report, Pending, Accounted, NoDuplicates;
    ReportSends(h);
    SendKeepsIds(h, !Pending(h));
  }

  lemma ScheduleKeepsIds(h: Handler)
    requires IdsKept(h)
    ensures IdsKept(ScheduleReport(h))
  {
    hide Report, Accounted, NoDuplicates;
    ReportKeepsIds(h.(notify := true));
  }

  lemma DefaultsKeepIds(h: Handler)
    requires IdsKept(h)
    ensures IdsKept(SetDefaults(h))
  {
    hide Accounted;
    AccountedSettle(h.log, h.changed, Reset);
  }

  lemma AssignOneKeepsIds(h: Handler, w: Assignment, isResource: bool, numeric: bool)
    ensures var r := Assign(h, w, isResource, numeric).handler;
            r.changed == h.changed && r.log == h.log && r.number == h.number
  {
    hide HasThreshold;
    match w
    case Pmin(_) =>
    case Pmax(_) =>
    case Gt(_) =>
    case Lt(_) =>
    case St(_) =>
    case Malformed =>
  }

  lemma {:induction false} AssignKeepsIds(h: Handler, ws: seq<Assignment>, isResource: bool, numeric: bool)
    ensures var r := AssignAll(h, ws, isResource, numeric).handler;
            r.changed == h.changed && r.log == h.log && r.number == h.number
    decreases |ws|
  {
    hide Assign;
    if ws != [] {
      AssignOneKeepsIds(h, ws[0], isResource, numeric);
    }
    if ws != [] && Assign(h, ws[0], isResource, numeric).success {
      AssignKeepsIds(Assign(h, ws[0], isResource, numeric).handler, ws[1..], isResource, numeric);
    }
  }

  lemma StepKeepsIds(h: Handler, e: Event)
    requires IdsKept(h)
    ensures IdsKept(Step(h, e))
  {
    hide Report, ScheduleReport, Accounted, NoDuplicates, ThresholdAccepts, AssignAll, SetDefaults, ValidAttributes;
    match e
    case Update(v) =>
      AccountedRecord(h.log, h.changed, Updated(v));
      ScheduleKeepsIds(h.(current := v, log := h.log + [Updated(v)]));
    case Trigger(id) =>
      TriggerKeepsIds(h, id);
    case ExpirePMin =>
      AccountedRecord(h.log, h.changed, PMinExpired);
      ReportKeepsIds(h.(pminTimer := false, pminExceeded := true, log := h.log + [PMinExpired]));
    case ExpirePMax =>
      AccountedRecord(h.log, h.changed, PMaxExpired);
      ReportKeepsIds(h.(pmaxTimer := false, pmaxExceeded := true, log := h.log + [PMaxExpired]));
    case Observe(on) =>
      DefaultsKeepIds(h.(underObservation := on, pminExceeded := false, pminTimer := false,
                         pmaxExceeded := false, pmaxTimer := false));
    case Write(q, isResource, numeric) =>
      AssignKeepsIds(h, q.Considered(), isResource, numeric);
      DefaultsKeepIds(ParseAttributes(h, q, isResource, numeric).handler);
  }

  lemma TriggerKeepsIds(h: Handler, id: nat)
    requires IdsKept(h)
    ensures IdsKept(SetTrigger(h, id))
  {
    hide ScheduleReport;
    var changed := if id in h.changed then h.changed else h.changed + [id];
    assert NoDuplicates(changed);
    assert Accounted(h.log, changed) by { assert forall x :: x in h.changed ==> x in changed; }
    hide Accounted;
    AccountedRecord(h.log, changed, Triggered(id));
    ScheduleKeepsIds(h.(changed := changed, current := 0.0, last := 1.0, log := h.log + [Triggered(id)]));
  }

  /**
   * In every run, attribute writes included: no id waits twice, and no triggered id is lost. It
   * waits, or a later notification carried it, or a reset of the handler dropped it.
   */
  lemma {:induction false} RunKeepsIds(es: seq<Event>)
    ensures NoDuplicates(Run(NEW_HANDLER, es).changed)
    ensures Accounted(Run(NEW_HANDLER, es).log, Run(NEW_HANDLER, es).changed)
    decreases |es|
  {
    hide Step, NoDuplicates, Accounted;
    if es == [] {
      NewKeepsIds();
    } else {
      RunKeepsIds(es[..|es| - 1]);
      StepKeepsIds(Run(NEW_HANDLER, es[..|es| - 1]), es[|es| - 1]);
    }
  }

  lemma NewKeepsIds()
    ensures IdsKept(NEW_HANDLER)
  {
  }

  // ----- no reset without an attribute write or an observation change

  predicate NoReset(log: seq<Record>) {
    forall i :: 0 <= i < |log| ==> !log[i].Reset?
  }

  lemma ReportWithoutReset(h: Handler)
    requires NoReset(h.log)
    ensures NoReset(Report(h).log)
  {
    hide Report, Pending, NextNumber;
    ReportSends(h);
  }

  lemma StepWithoutReset(h: Handler, e: Event)
    requires NoReset(h.log) && Reporting(e)
    ensures NoReset(Step(h, e).log)
  {
    hide ThresholdAccepts, Report;
    match e
    case Update(v) =>
      ReportWithoutReset(h.(current := v, log := h.log + [Updated(v)], notify := true));
    case Trigger(id) =>
      var changed := if id in h.changed then h.changed else h.changed + [id];
      ReportWithoutReset(h.(changed := changed, current := 0.0, last := 1.0, log := h.log + [Triggered(id)], notify := true));
    case ExpirePMin =>
      ReportWithoutReset(h.(pminTimer := false, pminExceeded := true, log := h.log + [PMinExpired]));
    case ExpirePMax =>
      ReportWithoutReset(h.(pmaxTimer := false, pmaxExceeded := true, log := h.log + [PMaxExpired]));
  }

  lemma {:induction false} RunWithoutReset(h: Handler, es: seq<Event>)
    requires NoReset(h.log) && IdsKept(h) && AllReporting(es)
    ensures NoReset(Run(h, es).log) && IdsKept(Run(h, es))
    decreases |es|
  {
    hide Step, NoReset, IdsKept;
    if es != [] {
      RunWithoutReset(h, es[..|es| - 1]);
      StepWithoutReset(Run(h, es[..|es| - 1]), es[|es| - 1]);
      StepKeepsIds(Run(h, es[..|es| - 1]), es[|es| - 1]);
    }
  }

  /** Some notification at or after a point of the log carries the id. */
  predicate Carried(log: seq<Record>, from: nat, id: nat) {
    exists j :: from <= j < |log| && log[j].Sent? && id in log[j].ids
  }

  /** With the attributes fixed, a triggered id waits or has been carried by a notification since. */
  lemma TriggersAreCarried(setup: seq<Event>, es: seq<Event>, i: nat)
    requires AllReporting(es)
    requires i < |Run(Observed(setup), es).log| && Run(Observed(setup), es).log[i].Triggered?
    ensures var h := Run(Observed(setup), es);
            var id := h.log[i].id;
            id in h.changed || Carried(h.log, i, id)
  {
    hide Run;
    RunKeepsIds(setup);
    var o := Observed(setup);
    assert IdsKept(o) && NoReset(o.log);
    RunWithoutReset(o, es);
    var h := Run(o, es);
    assert h.log[i].id in h.changed || Settled(h.log, i, h.log[i].id);
  }

  // ----- observation numbers

  /** The numbers of the notifications in a log, in order. */
  function Numbers(log: seq<Record>): (ns: seq<nat>) {
    if log == [] then []
    else
      var r := log[|log| - 1];
      var rest := Numbers(log[..|log| - 1]);
      if r.Sent? then rest + [r.number] else rest
  }

  lemma NumbersSnoc(log: seq<Record>, r: Record)
    ensures Numbers(log + [r]) == if r.Sent? then Numbers(log) + [r.number] else Numbers(log)
  {
    assert (log + [r])[..|log|] == log;
  }

  /** The counter after `k` notifications of a new handler. */
  function Counter(k: nat): (n: nat) {
    if k == 0 then 0 else NextNumber(Counter(k - 1))
  }

  const PERIOD := 0xFF_FFFF

  lemma NextInPeriod(k: nat)
    ensures (k + 1) % PERIOD == if k % PERIOD == PERIOD - 1 then 0 else k % PERIOD + 1
  {
    var q, r := k / PERIOD, k % PERIOD;
    if r == PERIOD - 1 {
      DivModUnique(k + 1, PERIOD, q + 1, 0);
    } else {
      DivModUnique(k + 1, PERIOD, q, r + 1);
    }
  }

  /** The counter runs through 0, 2, 3, ..., 2^24 - 1 and starts over. */
  lemma {:induction false} CounterClosed(k: nat)
    ensures Counter(k) == if k % PERIOD == 0 then 0 else k % PERIOD + 1
  {
    if k > 0 {
      CounterClosed(k - 1);
      NextInPeriod(k - 1);
    }
  }

  /** The number sent with the `k`-th notification, counted from 1. */
  function SentNumber(k: nat): (n: nat) {
    Counter(k) % 0x1_0000
  }

  predicate Numbered(h: Handler) {
    var ns := Numbers(h.log);
    h.number == Counter(|ns|) && forall i :: 0 <= i < |ns| ==> ns[i] == SentNumber(i + 1)
  }

  lemma SendNumbers(h: Handler, whole: bool)
    requires Numbered(h)
    ensures Numbered(Send(h, whole))
  {
    hide Numbers, NextNumber;
    NumbersSnoc(h.log, Sent(h.changed, NextNumber(h.number) % 0x1_0000, whole));
  }

  lemma SameNumbers(h: Handler, h1: Handler)
    requires Numbered(h) && h1.number == h.number && Numbers(h1.log) == Numbers(h.log)
    ensures Numbered(h1)
  {
  }

  lemma RecordNumbers(h: Handler, h1: Handler, r: Record)
    requires Numbered(h) && h1.number == h.number && !r.Sent? && h1.log == h.log + [r]
    ensures Numbered(h1)
  {
    NumbersSnoc(h.log, r);
  }

  lemma ReportNumbers(h: Handler)
    requires Numbered(h)
    ensures Numbered(Report(h))
  {
    hide Send, Report, Pending, Numbered;
    ReportSends(h);
    SendNumbers(h, !Pending(h));
    SameNumbers(if Pending(h) || h.pmaxExceeded then Send(h, !Pending(h)) else h, Report(h));
  }

  lemma ScheduleNumbers(h: Handler)
    requires Numbered(h)
    ensures Numbered(ScheduleReport(h))
  {
    hide Report, Numbered;
    SameNumbers(h, h.(notify := true));
    ReportNumbers(h.(notify := true));
  }

  lemma WriteNumbers(h: Handler, q: Query, isResource: bool, numeric: bool)
    requires Numbered(h)
    ensures Numbered(WriteAttributes(h, q, isResource, numeric))
  {
    hide Numbered, Numbers, AssignAll, ValidAttributes;
    AssignKeepsIds(h, q.Considered(), isResource, numeric);
    var r := WriteAttributes(h, q, isResource, numeric);
    if ParseAttributes(h, q, isResource, numeric).success {
      SameNumbers(h, r);
    } else {
      RecordNumbers(h, r, Reset);
    }
  }

  lemma StepNumbers(h: Handler, e: Event)
    requires Numbered(h)
    ensures Numbered(Step(h, e))
  {
    hide Numbered, Report, ScheduleReport, Numbers, ThresholdAccepts, WriteAttributes;
    match e
    case Update(v) =>
      var h1 := h.(current := v, log := h.log + [Updated(v)]);
      RecordNumbers(h, h1, Updated(v));
      ScheduleNumbers(h1);
      var h2 := if ThresholdAccepts(h1) then ScheduleReport(h1) else Withhold(h1);
      SameNumbers(h1, Withhold(h1));
      if v != h.last { SameNumbers(h2, Step(h, e)); }
    case Trigger(id) =>
      var changed := if id in h.changed then h.changed else h.changed + [id];
      var h1 := h.(changed := changed, current := 0.0, last := 1.0, log := h.log + [Triggered(id)]);
      RecordNumbers(h, h1, Triggered(id));
      ScheduleNumbers(h1);
    case ExpirePMin =>
      var h1 := h.(pminTimer := false, pminExceeded := true, log := h.log + [PMinExpired]);
      RecordNumbers(h, h1, PMinExpired);
      ReportNumbers(h1);
    case ExpirePMax =>
      var h1 := h.(pmaxTimer := false, pmaxExceeded := true, log := h.log + [PMaxExpired]);
      RecordNumbers(h, h1, PMaxExpired);
      ReportNumbers(h1);
    case Observe(on) =>
      if on { SameNumbers(h, Step(h, e)); } else { RecordNumbers(h, Step(h, e), Reset); }
    case Write(q, isResource, numeric) =>
      WriteNumbers(h, q, isResource, numeric);
  }

  lemma {:induction false} RunNumbers(es: seq<Event>)
    ensures Numbered(Run(NEW_HANDLER, es))
    decreases |es|
  {
    hide Step;
    if es != [] {
      RunNumbers(es[..|es| - 1]);
      hide Numbered;
      StepNumbers(Run(NEW_HANDLER, es[..|es| - 1]), es[|es| - 1]);
    }
  }

  /**
   * A notification bears the reserved number 1 exactly when its position in the counter's period is a
   * positive multiple of 65536: the counter skips 1, but only its low 16 bits are sent.
   */
  lemma ReservedNumberExactly(k: nat)
    ensures SentNumber(k) == 1 <==> k % PERIOD > 0 && (k % PERIOD) % 0x1_0000 == 0
  {
    CounterClosed(k);
    NextLow(k % PERIOD);
  }

  lemma NextLow(m: nat)
    ensures (m + 1) % 0x1_0000 == 1 <==> m % 0x1_0000 == 0
  {
  }

  lemma ApartInPeriod(m: nat, d: nat)
    requires 0 < d < 0xFFFF
    ensures (if m == 0 then 0 else m + 1) % 0x1_0000 != (m + d + 1) % 0x1_0000
  {
    if m == 0 { LowApart(0, d + 1); } else { LowApart(m + 1, d); }
  }

  lemma ApartAcrossPeriods(m: nat, n: nat)
    requires 0 < m < PERIOD && 0 < n + PERIOD - m < 0xFFFF
    ensures (m + 1) % 0x1_0000 != (if n == 0 then 0 else n + 1) % 0x1_0000
  {
    var n1 := if n == 0 then 0 else n + 1;
    LowApart(m + 1, 0x100_0000 + n1 - (m + 1));
    assert (0x100_0000 + n1) % 0x1_0000 == n1 % 0x1_0000;
  }

  /** Two positions fewer than 65535 apart bear different numbers. */
  lemma NumbersApart(k: nat, d: nat)
    requires 0 < d < 0xFFFF
    ensures SentNumber(k) != SentNumber(k + d)
  {
    hide Counter;
    var q, m := k / PERIOD, k % PERIOD;
    CounterClosed(k);
    CounterClosed(k + d);
    if m + d < PERIOD {
      DivModUnique(k + d, PERIOD, q, m + d);
      ApartInPeriod(m, d);
    } else {
      DivModUnique(k + d, PERIOD, q + 1, m + d - PERIOD);
      ApartAcrossPeriods(m, m + d - PERIOD);
    }
  }

  lemma LowApart(a: nat, d: nat)
    requires 0 < d < 0x1_0000
    ensures a % 0x1_0000 != (a + d) % 0x1_0000
  {
  }

  /**
   * The numbers of any run: the reserved number appears exactly at the positions above, and no
   * number repeats within 65535 consecutive notifications.
   */
  lemma ObservationNumbers(es: seq<Event>, i: nat, j: nat)
    requires i < j < |Numbers(Run(NEW_HANDLER, es).log)|
    ensures var ns := Numbers(Run(NEW_HANDLER, es).log);
            && (ns[i] == 1 <==> (i + 1) % PERIOD > 0 && ((i + 1) % PERIOD) % 0x1_0000 == 0)
            && (j - i < 0xFFFF ==> ns[i] != ns[j])
  {
    hide Run, Numbers, SentNumber;
    RunNumbers(es);
    ReservedNumberExactly(i + 1);
    if j - i < 0xFFFF {
      NumbersApart(i + 1, j - i);
    }
  }

  /** No number repeats within 65535 consecutive notifications. */
  ghost predicate NumbersDiffer(log: seq<Record>) {
    forall i, j :: 0 <= i < j < |Numbers(log)| && j - i < 0xFFFF ==> Numbers(log)[i] != Numbers(log)[j]
  }

  lemma RunNumbersDiffer(es: seq<Event>)
    ensures NumbersDiffer(Run(NEW_HANDLER, es).log)
  {
    hide Run, Numbers;
    var log := Run(NEW_HANDLER, es).log;
    forall i, j | 0 <= i < j < |Numbers(log)| && j - i < 0xFFFF
      ensures Numbers(log)[i] != Numbers(log)[j]
    {
      ObservationNumbers(es, i, j);
    }
  }

  // ----- the reserved number does go out

  function Triggers(n: nat): (es: seq<Event>) {
    if n == 0 then [] else Triggers(n - 1) + [Trigger(0)]
  }

  /** Without pmin every trigger is sent at once. */
  lemma {:induction false} EveryTriggerIsSent(n: nat)
    ensures var h := Run(NEW_HANDLER, Triggers(n));
            |Numbers(h.log)| == n && h.attrs == DEFAULTS
  {
    hide Run, Numbers, SetTrigger;
    if n == 0 {
      EmptyRun(NEW_HANDLER);
      NumbersOfNone();
    } else {
      EveryTriggerIsSent(n - 1);
      var h := Run(NEW_HANDLER, Triggers(n - 1));
      RunSnoc(NEW_HANDLER, Triggers(n - 1), Trigger(0));
      TriggerSends(h, 0);
      TriggerKeepsAttributes(h);
      var log := SetTrigger(h, 0).log;
      assert log == (h.log + [Triggered(0)]) + [log[|log| - 1]];
      NumbersSnoc(h.log, Triggered(0));
      NumbersSnoc(h.log + [Triggered(0)], log[|log| - 1]);
    }
  }

  lemma NumbersOfNone()
    ensures Numbers([]) == []
  {
  }

  lemma TriggerKeepsAttributes(h: Handler)
    ensures SetTrigger(h, 0).attrs == h.attrs
  {
    hide Report;
    var changed := if 0 in h.changed then h.changed else h.changed + [0];
    ReportKeepsFields(h.(changed := changed, current := 0.0, last := 1.0, log := h.log + [Triggered(0)], notify := true));
  }

  /** The 65536th of a row of triggers goes out with the number that is reserved for deregistration. */
  lemma ReservedNumberIsSent()
    ensures var ns := Numbers(Run(NEW_HANDLER, Triggers(0x1_0000)).log);
            |ns| == 0x1_0000 && ns[0xFFFF] == 1
  {
    hide Run, Numbers, SentNumber, Triggers, Counter;
    EveryTriggerIsSent(0x1_0000);
    var es := Triggers(0x1_0000);
    RunNumbers(es);
    assert SentNumber(0x1_0000) == 1 by { ReservedNumberExactly(0x1_0000); }
  }
}
